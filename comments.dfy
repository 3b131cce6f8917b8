/**
 * The comment sync engine, `dumpJournalComments` (main.go:1218-1440). A
 * meta pass pages through `export_comments.bml?get=comment_meta` from the
 * highest stored comment id, collecting each comment's poster and state
 * and the poster names; a body pass pages through `comment_body` and
 * merges every comment into the comment file of its post. Only when both
 * passes finish are the collected meta data added to the journal DB.
 *
 * The server is a script: `metaAnswers` and `bodyAnswers` answer the
 * requests of each pass in order. A pass that needs an answer beyond its
 * script is cut off there.
 */
module CommentSync {
  import opened Wrappers
  import opened Reports
  import opened Decimal
  import opened Archive
  import opened JournalDb
  import opened CommentMerge

  /** The highest stored comment id, or -1 when there is none or all are below -1. */
  ghost predicate IsMaxStored(m: map<int, CommentMeta>, top: int) {
    && top >= -1
    && (forall id :: id in m ==> id <= top)
    && (top == -1 || top in m)
  }

  /**
   * A non-empty set of ids has an element. This models nothing in the
   * archiver: it only lets `MaxOrMinusOne` pick an element with `:|`.
   */
  lemma SetHasElement(ids: set<int>)
    requires ids != {}
    ensures exists id :: id in ids
  {
    if forall id :: id !in ids {
      assert false;
    }
  }

  /** The highest element of `ids`, or -1. */
  ghost function MaxOrMinusOne(ids: set<int>): (top: int)
    ensures top >= -1 && (forall id :: id in ids ==> id <= top) && (top == -1 || top in ids)
    decreases ids
  {
    if ids == {} then -1
    else
      SetHasElement(ids);
      var x :| x in ids;
      var rest := MaxOrMinusOne(ids - {x});
      assert forall id :: id in ids ==> id == x || id in ids - {x};
      if x > rest then x else rest
  }

  /** The starting frontier of both passes. */
  ghost function MaxStoredId(m: map<int, CommentMeta>): (top: int)
    ensures IsMaxStored(m, top)
  {
    MaxOrMinusOne(m.Keys)
  }

  /** The frontier is determined by the stored ids. */
  lemma MaxStoredUnique(m: map<int, CommentMeta>, a: int, b: int)
    requires IsMaxStored(m, a) && IsMaxStored(m, b)
    ensures a == b
  {
    if a != -1 {
      assert a <= b;
    }
    if b != -1 {
      assert b <= a;
    }
  }

  /** The loop of main.go:1281-1286 over the stored comment ids. */
  method MaxStoredCommentId(m: map<int, CommentMeta>) returns (top: int)
    ensures top == MaxStoredId(m)
  {
    top := -1;
    var rest := m.Keys;
    while rest != {}
      invariant rest <= m.Keys
      invariant top >= -1 && (top == -1 || top in m)
      invariant forall id :: id in m && id !in rest ==> id <= top
      decreases rest
    {
      SetHasElement(rest);
      var x :| x in rest;
      if top < x {
        top := x;
      }
      rest := rest - {x};
    }
    MaxStoredUnique(m, top, MaxStoredId(m));
  }

  /** How `fetchCommentData` ends: the request or body read fails, the XML does not parse, or a chunk. */
  datatype Fetch<T> = ReadError(err: string) | ParseError(err: string) | Chunk(value: T)

  /** The report `fetchCommentData` gives for a failed fetch of `comment_<kind>`. */
  function FetchReport<T>(kind: string, f: Fetch<T>): (r: Report)
    requires !f.Chunk?
    ensures f.ReadError? ==> r == WrapErr(f.err, "failed to read comment_" + kind + " response")
    ensures f.ParseError? ==> r == WrapErr(f.err, "failed to process comments_" + kind
                                               + " response, possibly not community maintainer?")
  {
    if f.ReadError? then WrapErr(f.err, "failed to read comment_" + kind + " response")
    else WrapErr(f.err, "failed to process comments_" + kind + " response, possibly not community maintainer?")
  }

  /** One `<comment>` of a meta chunk. */
  datatype MetaComment = MetaComment(id: int, posterId: int, state: string)

  /** One `<usermap>` of a meta chunk. */
  datatype UserMapEntry = UserMapEntry(id: int, user: string)

  datatype MetaChunk = MetaChunk(maxId: int, comments: seq<MetaComment>, userMaps: seq<UserMapEntry>)

  /** What the meta pass collects: `newComments`, `newCommentUsers` and `newMaxId`. */
  datatype MetaAcc = MetaAcc(comments: map<int, CommentMeta>, users: map<int, string>, maxId: int)

  /** The comments of a chunk in order: later entries for an id win, the frontier rises to the largest id. */
  function ApplyMetaComments(acc: MetaAcc, cs: seq<MetaComment>): (r: MetaAcc)
    ensures r.users == acc.users
    ensures r.maxId >= acc.maxId && forall i :: 0 <= i < |cs| ==> cs[i].id <= r.maxId
    ensures r.comments.Keys == acc.comments.Keys + set i | 0 <= i < |cs| :: cs[i].id
    decreases |cs|
  {
    if cs == [] then acc
    else
      var c := cs[0];
      var next := MetaAcc(acc.comments[c.id := CommentMeta(c.posterId, c.state)], acc.users,
                          if acc.maxId < c.id then c.id else acc.maxId);
      var r := ApplyMetaComments(next, cs[1..]);
      assert forall i :: 1 <= i < |cs| ==> cs[i] == cs[1..][i - 1];
      assert (set i | 0 <= i < |cs| :: cs[i].id) == {c.id} + set i | 0 <= i < |cs[1..]| :: cs[1..][i].id;
      r
  }

  /** The user maps of a chunk in order: later entries for an id win. */
  function ApplyUserMaps(users: map<int, string>, us: seq<UserMapEntry>): (r: map<int, string>)
    ensures r.Keys == users.Keys + set i | 0 <= i < |us| :: us[i].id
    decreases |us|
  {
    if us == [] then users
    else
      var r := ApplyUserMaps(users[us[0].id := us[0].user], us[1..]);
      assert forall i :: 1 <= i < |us| ==> us[i] == us[1..][i - 1];
      assert (set i | 0 <= i < |us| :: us[i].id) == {us[0].id} + set i | 0 <= i < |us[1..]| :: us[1..][i].id;
      r
  }

  function ApplyMetaChunk(acc: MetaAcc, chunk: MetaChunk): MetaAcc {
    var a := ApplyMetaComments(acc, chunk.comments);
    a.(users := ApplyUserMaps(a.users, chunk.userMaps))
  }

  /** How a pass ended. */
  datatype PassEnd = Finished | Failed(report: Report) | CutOff

  /** The meta pass: what it collected, how it ended, and the `startid` of every request it made. */
  datatype MetaResult = MetaResult(acc: MetaAcc, end: PassEnd, starts: seq<int>)

  /**
   * The meta loop (main.go:1297-1338): each request starts after the
   * frontier, and the loop ends once the frontier reaches the chunk's
   * `maxid`. `starts` holds the start ids of the requests already made.
   */
  function MetaRun(acc: MetaAcc, starts: seq<int>, answers: seq<Fetch<MetaChunk>>): (r: MetaResult)
    ensures |r.starts| <= |starts| + |answers| && (r.end.CutOff? ==> |r.starts| == |starts| + |answers|)
    decreases |answers|
  {
    if answers == [] then MetaResult(acc, CutOff, starts)
    else
      var starts' := starts + [acc.maxId + 1];
      match answers[0]
      case Chunk(chunk) =>
        var next := ApplyMetaChunk(acc, chunk);
        if next.maxId >= chunk.maxId then MetaResult(next, Finished, starts')
        else MetaRun(next, starts', answers[1..])
      case _ => MetaResult(acc, Failed(FetchReport("meta", answers[0])), starts')
  }

  /** The comments of a meta chunk, as the loop at main.go:1317-1323 applies them. */
  method CollectMetaComments(acc: MetaAcc, cs: seq<MetaComment>) returns (r: MetaAcc)
    ensures r == ApplyMetaComments(acc, cs)
  {
    r := acc;
    for i := 0 to |cs|
      invariant ApplyMetaComments(r, cs[i..]) == ApplyMetaComments(acc, cs)
    {
      assert cs[i..][0] == cs[i] && cs[i..][1..] == cs[i + 1..];
      var c := cs[i];
      var comments := r.comments[c.id := CommentMeta(c.posterId, c.state)];
      var maxId := r.maxId;
      if maxId < c.id {
        maxId := c.id;
      }
      r := MetaAcc(comments, r.users, maxId);
    }
    assert cs[|cs|..] == [];
  }

  /** The user maps of a meta chunk (main.go:1324-1326). */
  method CollectUserMaps(users: map<int, string>, us: seq<UserMapEntry>) returns (r: map<int, string>)
    ensures r == ApplyUserMaps(users, us)
  {
    r := users;
    for i := 0 to |us|
      invariant ApplyUserMaps(r, us[i..]) == ApplyUserMaps(users, us)
    {
      assert us[i..][0] == us[i] && us[i..][1..] == us[i + 1..];
      r := r[us[i].id := us[i].user];
    }
    assert us[|us|..] == [];
  }

  /** The meta pass from the frontier `maxStored`; `used` answers were consumed. */
  method MetaPass(maxStored: int, answers: seq<Fetch<MetaChunk>>) returns (r: MetaResult)
    ensures r == MetaRun(MetaAcc(map[], map[], maxStored), [], answers)
  {
    ghost var whole := MetaRun(MetaAcc(map[], map[], maxStored), [], answers);
    var acc := MetaAcc(map[], map[], maxStored);
    var starts: seq<int> := [];
    var k := 0;
    while k < |answers|
      invariant 0 <= k <= |answers|
      invariant whole == MetaRun(acc, starts, answers[k..])
    {
      assert answers[k..][0] == answers[k] && answers[k..][1..] == answers[k + 1..];
      var startId := acc.maxId + 1;
      starts := starts + [startId];
      var answer := answers[k];
      if !answer.Chunk? {
        return MetaResult(acc, Failed(FetchReport("meta", answer)), starts);
      }
      var chunk := answer.value;
      var next := CollectMetaComments(acc, chunk.comments);
      var users := CollectUserMaps(next.users, chunk.userMaps);
      next := next.(users := users);
      assert next == ApplyMetaChunk(acc, chunk);
      if next.maxId >= chunk.maxId {
        return MetaResult(next, Finished, starts);
      }
      assert whole == MetaRun(next, starts, answers[k + 1..]);
      acc := next;
      k := k + 1;
    }
    assert answers[|answers|..] == [];
    return MetaResult(acc, CutOff, starts);
  }

  /**
   * The meta pass's frontier rules: the earlier start ids are kept, the
   * first new request starts right after the frontier, every request
   * starts right after the frontier of the moment, so the new start ids
   * never go down and never pass the final frontier, and the pass
   * finishes only when the frontier has reached a chunk's `maxid`.
   */
  lemma {:induction false} MetaRunFrontier(acc: MetaAcc, starts: seq<int>, answers: seq<Fetch<MetaChunk>>)
    ensures var r := MetaRun(acc, starts, answers);
      && r.acc.maxId >= acc.maxId
      && StartsFrom(starts, acc.maxId + 1, r.starts)
      && (forall i :: |starts| <= i < |r.starts| ==> r.starts[i] <= r.acc.maxId + 1)
      && (r.end.Finished? ==> exists k :: 0 <= k < |answers| && answers[k].Chunk? && r.acc.maxId >= answers[k].value.maxId)
    decreases |answers|
  {
    var lo := acc.maxId + 1;
    var r := MetaRun(acc, starts, answers);
    if answers == [] {
      assert StartsFrom(starts, lo, starts);
    } else {
      var starts' := starts + [lo];
      assert StartsFrom(starts, lo, starts');
      if answers[0].Chunk? {
        var chunk := answers[0].value;
        var next := ApplyMetaChunk(acc, chunk);
        if next.maxId < chunk.maxId {
          MetaRunFrontier(next, starts', answers[1..]);
          assert r == MetaRun(next, starts', answers[1..]);
          StartsFromStep(starts, lo, next.maxId + 1, r.starts);
          assert r.starts[|starts|] == lo;
          if r.end.Finished? {
            var k :| 0 <= k < |answers[1..]| && answers[1..][k].Chunk? && r.acc.maxId >= answers[1..][k].value.maxId;
            assert answers[k + 1] == answers[1..][k];
          }
        }
      }
    }
  }

  /** One `<comment>` of a body chunk. */
  datatype BodyComment = BodyComment(id: int, posterId: int, state: string, jItemId: int,
                                     parentId: string, subject: string, body: string, date: string)

  /** What a record's missing state and user are looked up in: the meta pass's data, then the journal DB's. */
  datatype Known = Known(newMeta: map<int, CommentMeta>, newUsers: map<int, string>,
                         dbMeta: map<int, CommentMeta>, dbUsers: map<int, string>)

  /**
   * The stored record of a downloaded comment (main.go:1348-1370): an
   * empty state is taken from the new meta data, else from the journal
   * DB; a non-zero poster is named from the new user maps, else from the
   * journal DB.
   */
  function BuildRecord(c: BodyComment, k: Known): (r: CommentRecord)
    ensures r.id == c.id && r.parentId == c.parentId && r.subject == c.subject && r.date == c.date && r.body == c.body
    ensures c.state != "" ==> r.state == c.state
    ensures c.state == "" && c.id in k.newMeta ==> r.state == k.newMeta[c.id].state
    ensures c.state == "" && c.id !in k.newMeta && c.id in k.dbMeta ==> r.state == k.dbMeta[c.id].state
    ensures c.state == "" && c.id !in k.newMeta && c.id !in k.dbMeta ==> r.state == ""
    ensures c.posterId == 0 || (c.posterId !in k.newUsers && c.posterId !in k.dbUsers) ==> r.user == ""
    ensures c.posterId != 0 && c.posterId in k.newUsers ==> r.user == k.newUsers[c.posterId]
    ensures c.posterId != 0 && c.posterId !in k.newUsers && c.posterId in k.dbUsers ==> r.user == k.dbUsers[c.posterId]
  {
    var state :=
      if c.state != "" then c.state
      else if c.id in k.newMeta then k.newMeta[c.id].state
      else if c.id in k.dbMeta then k.dbMeta[c.id].state
      else "";
    var user :=
      if c.posterId == 0 then ""
      else if c.posterId in k.newUsers then k.newUsers[c.posterId]
      else if c.posterId in k.dbUsers then k.dbUsers[c.posterId]
      else "";
    CommentRecord(c.id, state, user, c.parentId, c.date, c.subject, c.body)
  }

  /** The comment file of post `jItemId`, `C-<jItemId>` in the journal directory. */
  function CommentFilePath(dir: string, jItemId: int): string {
    JoinPath(dir, "C-" + FormatInt(jItemId))
  }

  /** `xml.Unmarshal` of a comment file: an empty file is `EOF`, a file of another kind does not parse. */
  function AsCommentFile(content: FileContent): (r: Result<seq<CommentRecord>, string>)
    ensures content.CommentXml? ==> r == Ok(content.comments)
    ensures !content.CommentXml? ==> r.Err?
  {
    match content
    case CommentXml(comments) => Ok(comments)
    case Empty => Err("EOF")
    case _ => Err("malformed comment file")
  }

  /** What the body pass changes: `maxFetchedId`, the new-comment counter and the files. */
  datatype BodyState = BodyState(maxFetchedId: int, newComments: int, files: map<string, FileContent>)

  /** Merging a record into the comments read from `path`, and writing them if they changed. */
  function SaveRecord(st: BodyState, path: string, stored: seq<CommentRecord>, record: CommentRecord,
                      failing: map<string, string>): (r: (BodyState, Option<Report>))
  {
    var (merged, shouldStore) := Merge(stored, record);
    if !shouldStore then (st, None)
    else if path in failing then (st, Some(WrapErr(failing[path], "")))
    else (st.(newComments := st.newComments + 1, files := st.files[path := CommentXml(merged)]), None)
  }

  /** One downloaded comment (main.go:1346-1423). */
  function StoreStep(st: BodyState, c: BodyComment, k: Known, dir: string, failing: map<string, string>,
                     unreadable: map<string, string>): (r: (BodyState, Option<Report>))
    ensures r.0.maxFetchedId == (if st.maxFetchedId < c.id then c.id else st.maxFetchedId)
    ensures r.1.Some? || r.0.newComments == st.newComments ==> r.0.files == st.files
  {
    var record := BuildRecord(c, k);
    var st1 := st.(maxFetchedId := if st.maxFetchedId < c.id then c.id else st.maxFetchedId);
    var path := CommentFilePath(dir, c.jItemId);
    match ReadPath(st.files, unreadable, path)
    case ReadFailed(err) => (st1, Some(WrapErr(err, "error while reading old comments from " + path)))
    case NotExist => SaveRecord(st1, path, [], record, failing)
    case Contents(content) =>
      match AsCommentFile(content)
      case Err(err) => (st1, Some(WrapErr(err, "failed to parse old comments from " + path)))
      case Ok(stored) => SaveRecord(st1, path, stored, record, failing)
  }

  /**
   * Storing a comment a second time, on the files the first time left,
   * changes nothing and writes nothing.
   */
  lemma StoreStepIdempotent(st: BodyState, c: BodyComment, k: Known, dir: string, failing: map<string, string>,
                            unreadable: map<string, string>)
    requires StoreStep(st, c, k, dir, failing, unreadable).1.None?
    ensures var st1 := StoreStep(st, c, k, dir, failing, unreadable).0;
      StoreStep(st1, c, k, dir, failing, unreadable) == (st1, None)
  {
    var record := BuildRecord(c, k);
    var path := CommentFilePath(dir, c.jItemId);
    var st1 := StoreStep(st, c, k, dir, failing, unreadable).0;
    var stored := if path in st.files && st.files[path].CommentXml? then st.files[path].comments else [];
    MergeIdempotent(stored, record);
    if Merge(stored, record).1 {
      assert st1.files[path] == CommentXml(Merge(stored, record).0);
    } else {
      assert st1.files == st.files;
    }
  }

  /** The comments of one body chunk in order, up to the first report. */
  function ChunkRun(st: BodyState, cs: seq<BodyComment>, k: Known, dir: string, failing: map<string, string>,
                    unreadable: map<string, string>): (r: (BodyState, Option<Report>))
    decreases |cs|
  {
    if cs == [] then (st, None)
    else
      var step := StoreStep(st, cs[0], k, dir, failing, unreadable);
      if step.1.Some? then step else ChunkRun(step.0, cs[1..], k, dir, failing, unreadable)
  }

  /** The body pass: its state, how it ended, and the `startid` of every request it made. */
  datatype BodyResult = BodyResult(state: BodyState, end: PassEnd, starts: seq<int>)

  /**
   * The body loop (main.go:1340-1427): each request starts after
   * `maxFetchedId`, and the loop ends once `maxFetchedId` reaches the
   * frontier of the meta pass. `starts` holds the start ids of the
   * requests already made.
   */
  function BodyRun(st: BodyState, starts: seq<int>, newMaxId: int, answers: seq<Fetch<seq<BodyComment>>>, k: Known,
                   dir: string, failing: map<string, string>, unreadable: map<string, string>): (r: BodyResult)
    ensures |r.starts| <= |starts| + |answers|
    decreases |answers|, 0
  {
    if answers == [] then BodyResult(st, CutOff, starts)
    else
      var starts' := starts + [st.maxFetchedId + 1];
      match answers[0]
      case Chunk(cs) =>
        AfterChunk(ChunkRun(st, cs, k, dir, failing, unreadable), starts', newMaxId, answers[1..], k, dir, failing, unreadable)
      case _ => BodyResult(st, Failed(FetchReport("body", answers[0])), starts')
  }

  /** The body loop after a chunk: stop on a report or once the meta frontier is reached, else go on. */
  function AfterChunk(chunk: (BodyState, Option<Report>), starts: seq<int>, newMaxId: int,
                      answers: seq<Fetch<seq<BodyComment>>>, k: Known, dir: string, failing: map<string, string>,
                      unreadable: map<string, string>): (r: BodyResult)
    ensures |r.starts| <= |starts| + |answers|
    decreases |answers|, 1
  {
    if chunk.1.Some? then BodyResult(chunk.0, Failed(chunk.1.value), starts)
    else if chunk.0.maxFetchedId >= newMaxId then BodyResult(chunk.0, Finished, starts)
    else BodyRun(chunk.0, starts, newMaxId, answers, k, dir, failing, unreadable)
  }

  /** `maxFetchedId` never goes down over a chunk. */
  lemma {:induction false} ChunkRunRaisesFrontier(st: BodyState, cs: seq<BodyComment>, k: Known, dir: string,
                                                  failing: map<string, string>, unreadable: map<string, string>)
    ensures ChunkRun(st, cs, k, dir, failing, unreadable).0.maxFetchedId >= st.maxFetchedId
    decreases |cs|
  {
    if cs != [] {
      var step := StoreStep(st, cs[0], k, dir, failing, unreadable);
      if step.1.None? {
        ChunkRunRaisesFrontier(step.0, cs[1..], k, dir, failing, unreadable);
      }
    }
  }

  /**
   * `rs` keeps the start ids `starts` of the earlier requests; the new
   * ones begin at `lo` and never go down.
   */
  ghost predicate StartsFrom(starts: seq<int>, lo: int, rs: seq<int>) {
    && starts <= rs
    && (|rs| > |starts| ==> rs[|starts|] == lo)
    && (forall i :: |starts| <= i < |rs| ==> lo <= rs[i])
    && (forall i, j :: |starts| <= i <= j < |rs| ==> rs[i] <= rs[j])
  }

  /** A request that starts at `lo`, followed by requests from `lo'` on, with `lo <= lo'`. */
  lemma StartsFromStep(starts: seq<int>, lo: int, lo': int, rs: seq<int>)
    requires lo <= lo'
    requires StartsFrom(starts + [lo], lo', rs)
    ensures StartsFrom(starts, lo, rs)
  {
    assert rs[|starts|] == (starts + [lo])[|starts|];
  }

  /**
   * The body pass's frontier rules: the earlier start ids are kept, the
   * first new request starts right after the stored frontier, the new
   * start ids never go down, and the pass finishes only once
   * `maxFetchedId` has reached the meta frontier.
   */
  lemma {:induction false} BodyRunFrontier(st: BodyState, starts: seq<int>, newMaxId: int,
                                           answers: seq<Fetch<seq<BodyComment>>>, k: Known, dir: string,
                                           failing: map<string, string>, unreadable: map<string, string>)
    ensures var r := BodyRun(st, starts, newMaxId, answers, k, dir, failing, unreadable);
      && r.state.maxFetchedId >= st.maxFetchedId
      && StartsFrom(starts, st.maxFetchedId + 1, r.starts)
      && (r.end.Finished? ==> r.state.maxFetchedId >= newMaxId)
    decreases |answers|, 0
  {
    var lo := st.maxFetchedId + 1;
    if answers == [] {
      assert StartsFrom(starts, lo, starts);
    } else {
      var starts' := starts + [lo];
      assert StartsFrom(starts, lo, starts');
      if answers[0].Chunk? {
        var next := ChunkRun(st, answers[0].value, k, dir, failing, unreadable);
        ChunkRunRaisesFrontier(st, answers[0].value, k, dir, failing, unreadable);
        AfterChunkFrontier(next, starts, lo, newMaxId, answers[1..], k, dir, failing, unreadable);
      }
    }
  }

  /** The same rules for the loop after a chunk that left `maxFetchedId` at or above `lo - 1`. */
  lemma {:induction false} AfterChunkFrontier(chunk: (BodyState, Option<Report>), starts: seq<int>, lo: int, newMaxId: int,
                                              answers: seq<Fetch<seq<BodyComment>>>, k: Known, dir: string,
                                              failing: map<string, string>, unreadable: map<string, string>)
    requires lo <= chunk.0.maxFetchedId + 1
    ensures var r := AfterChunk(chunk, starts + [lo], newMaxId, answers, k, dir, failing, unreadable);
      && r.state.maxFetchedId >= lo - 1
      && StartsFrom(starts, lo, r.starts)
      && (r.end.Finished? ==> r.state.maxFetchedId >= newMaxId)
    decreases |answers|, 1
  {
    var starts' := starts + [lo];
    assert StartsFrom(starts, lo, starts');
    if chunk.1.None? && chunk.0.maxFetchedId < newMaxId {
      BodyRunFrontier(chunk.0, starts', newMaxId, answers, k, dir, failing, unreadable);
      StartsFromStep(starts, lo, chunk.0.maxFetchedId + 1,
                     BodyRun(chunk.0, starts', newMaxId, answers, k, dir, failing, unreadable).starts);
    }
  }

  /** One downloaded comment stored into the comment file of its post. */
  method StoreComment(jcx: JournalContext, disk: Disk, c: BodyComment, k: Known, maxFetchedId: int)
    returns (maxFetchedId': int, r: Option<Report>)
    modifies jcx, disk
    ensures disk.failing == old(disk.failing) && disk.unreadable == old(disk.unreadable)
    ensures jcx.db == old(jcx.db) && jcx.shouldWriteDB == old(jcx.shouldWriteDB) && jcx.made == old(jcx.made)
    ensures jcx.newEntries == old(jcx.newEntries) && jcx.origDbLastSync == old(jcx.origDbLastSync)
    ensures (BodyState(maxFetchedId', jcx.newComments, disk.files), r)
      == StoreStep(BodyState(maxFetchedId, old(jcx.newComments), old(disk.files)), c, k, jcx.dir, disk.failing, disk.unreadable)
  {
    var record := BuildRecord(c, k);
    maxFetchedId' := maxFetchedId;
    if maxFetchedId' < c.id {
      maxFetchedId' := c.id;
    }
    var commentFilePath := CommentFilePath(jcx.dir, c.jItemId);
    var stored: seq<CommentRecord> := [];
    var olddata := disk.Read(commentFilePath);
    if olddata.ReadFailed? {
      return maxFetchedId', Some(WrapErr(olddata.error, "error while reading old comments from " + commentFilePath));
    } else if olddata.Contents? {
      var parsed := AsCommentFile(olddata.content);
      if parsed.Err? {
        return maxFetchedId', Some(WrapErr(parsed.error, "failed to parse old comments from " + commentFilePath));
      }
      stored := parsed.value;
    }
    r := SaveComment(jcx, disk, commentFilePath, stored, record, maxFetchedId');
  }

  /** The merge of one record into the comments read from `path`, written back if it changed anything. */
  method SaveComment(jcx: JournalContext, disk: Disk, path: string, stored: seq<CommentRecord>, record: CommentRecord,
                     maxFetchedId: int)
    returns (r: Option<Report>)
    modifies jcx, disk
    ensures disk.failing == old(disk.failing) && disk.unreadable == old(disk.unreadable)
    ensures jcx.db == old(jcx.db) && jcx.shouldWriteDB == old(jcx.shouldWriteDB) && jcx.made == old(jcx.made)
    ensures jcx.newEntries == old(jcx.newEntries) && jcx.origDbLastSync == old(jcx.origDbLastSync)
    ensures (BodyState(maxFetchedId, jcx.newComments, disk.files), r)
      == SaveRecord(BodyState(maxFetchedId, old(jcx.newComments), old(disk.files)), path, stored, record, disk.failing)
  {
    var merged, shouldStore := MergeComment(stored, record);
    if shouldStore {
      var err := disk.WriteFileTempRename(path, CommentXml(merged));
      if err.Some? {
        return Some(WrapErr(err.value, ""));
      }
      jcx.newComments := jcx.newComments + 1;
    }
    r := None;
  }

  /** The comments of one body chunk (main.go:1346-1423). */
  method StoreChunk(jcx: JournalContext, disk: Disk, cs: seq<BodyComment>, k: Known, maxFetchedId: int)
    returns (maxFetchedId': int, r: Option<Report>)
    modifies jcx, disk
    ensures disk.failing == old(disk.failing) && disk.unreadable == old(disk.unreadable)
    ensures jcx.db == old(jcx.db) && jcx.shouldWriteDB == old(jcx.shouldWriteDB) && jcx.made == old(jcx.made)
    ensures jcx.newEntries == old(jcx.newEntries) && jcx.origDbLastSync == old(jcx.origDbLastSync)
    ensures (BodyState(maxFetchedId', jcx.newComments, disk.files), r)
      == ChunkRun(BodyState(maxFetchedId, old(jcx.newComments), old(disk.files)), cs, k, jcx.dir, disk.failing, disk.unreadable)
  {
    ghost var whole := ChunkRun(BodyState(maxFetchedId, jcx.newComments, disk.files), cs, k, jcx.dir, disk.failing, disk.unreadable);
    maxFetchedId' := maxFetchedId;
    for i := 0 to |cs|
      invariant disk.failing == old(disk.failing) && disk.unreadable == old(disk.unreadable)
      invariant jcx.db == old(jcx.db) && jcx.shouldWriteDB == old(jcx.shouldWriteDB) && jcx.made == old(jcx.made)
      invariant jcx.newEntries == old(jcx.newEntries) && jcx.origDbLastSync == old(jcx.origDbLastSync)
      invariant whole == ChunkRun(BodyState(maxFetchedId', jcx.newComments, disk.files), cs[i..], k, jcx.dir, disk.failing, disk.unreadable)
    {
      assert cs[i..][0] == cs[i] && cs[i..][1..] == cs[i + 1..];
      maxFetchedId', r := StoreComment(jcx, disk, cs[i], k, maxFetchedId');
      if r.Some? {
        return;
      }
    }
    assert cs[|cs|..] == [];
    r := None;
  }

  /** The body pass; it returns the `startid` of every request it made. */
  method BodyPass(jcx: JournalContext, disk: Disk, maxStored: int, newMaxId: int,
                  answers: seq<Fetch<seq<BodyComment>>>, k: Known)
    returns (r: Option<Report>, end: PassEnd, starts: seq<int>)
    modifies jcx, disk
    ensures disk.failing == old(disk.failing) && disk.unreadable == old(disk.unreadable)
    ensures jcx.db == old(jcx.db) && jcx.shouldWriteDB == old(jcx.shouldWriteDB) && jcx.made == old(jcx.made)
    ensures jcx.newEntries == old(jcx.newEntries) && jcx.origDbLastSync == old(jcx.origDbLastSync)
    ensures var run := BodyRun(BodyState(maxStored, old(jcx.newComments), old(disk.files)), [], newMaxId, answers, k,
                               jcx.dir, disk.failing, disk.unreadable);
      && jcx.newComments == run.state.newComments && disk.files == run.state.files
      && end == run.end && starts == run.starts
      && r == (if end.Failed? then Some(end.report) else None)
  {
    ghost var whole := BodyRun(BodyState(maxStored, jcx.newComments, disk.files), [], newMaxId, answers, k,
                               jcx.dir, disk.failing, disk.unreadable);
    var maxFetchedId := maxStored;
    starts := [];
    var a := 0;
    while a < |answers|
      invariant 0 <= a <= |answers|
      invariant disk.failing == old(disk.failing) && disk.unreadable == old(disk.unreadable)
      invariant jcx.db == old(jcx.db) && jcx.shouldWriteDB == old(jcx.shouldWriteDB) && jcx.made == old(jcx.made)
      invariant jcx.newEntries == old(jcx.newEntries) && jcx.origDbLastSync == old(jcx.origDbLastSync)
      invariant whole == BodyRun(BodyState(maxFetchedId, jcx.newComments, disk.files), starts, newMaxId, answers[a..], k,
                                 jcx.dir, disk.failing, disk.unreadable)
    {
      assert answers[a..][0] == answers[a] && answers[a..][1..] == answers[a + 1..];
      starts := starts + [maxFetchedId + 1];
      var answer := answers[a];
      if !answer.Chunk? {
        var report := FetchReport("body", answer);
        return Some(report), Failed(report), starts;
      }
      maxFetchedId, r := StoreChunk(jcx, disk, answer.value, k, maxFetchedId);
      if r.Some? {
        return r, Failed(r.value), starts;
      }
      if maxFetchedId >= newMaxId {
        return None, Finished, starts;
      }
      a := a + 1;
    }
    assert answers[|answers|..] == [];
    return None, CutOff, starts;
  }

  /** The loops of main.go:1431-1436: every entry of `extra` is set in `m`. */
  method SetAll<V>(m: map<int, V>, extra: map<int, V>) returns (r: map<int, V>)
    ensures r == m + extra
  {
    r := m;
    var rest := extra.Keys;
    while rest != {}
      invariant rest <= extra.Keys
      invariant r.Keys == m.Keys + (extra.Keys - rest)
      invariant forall id :: id in r ==> r[id] == (if id in extra && id !in rest then extra[id] else m[id])
      decreases rest
    {
      SetHasElement(rest);
      var id :| id in rest;
      r := r[id := extra[id]];
      rest := rest - {id};
    }
    assert r.Keys == (m + extra).Keys;
    assert forall id :: id in r ==> r[id] == (m + extra)[id];
  }

  /**
   * The journal DB and its write flag after both passes finished, with
   * every map made: the collected entries replace or join the stored ones,
   * and the DB is due to be written.
   */
  function AddCollectedCorrected(db: JournalDB, shouldWriteDB: bool, acc: MetaAcc): (r: (JournalDB, bool))
    ensures r.0.lastSync == db.lastSync
    ensures |acc.comments| == 0 && |acc.users| == 0 ==> r == (db, shouldWriteDB)
    ensures |acc.comments| != 0 || |acc.users| != 0 ==>
      && r.1
      && (forall id :: id in acc.comments ==> id in r.0.commentMap && r.0.commentMap[id] == acc.comments[id])
      && (forall id :: id in db.commentMap && id !in acc.comments ==> id in r.0.commentMap && r.0.commentMap[id] == db.commentMap[id])
      && r.0.commentMap.Keys == db.commentMap.Keys + acc.comments.Keys
      && (forall id :: id in acc.users ==> id in r.0.userMap && r.0.userMap[id] == acc.users[id])
      && (forall id :: id in db.userMap && id !in acc.users ==> id in r.0.userMap && r.0.userMap[id] == db.userMap[id])
      && r.0.userMap.Keys == db.userMap.Keys + acc.users.Keys
  {
    if |acc.comments| != 0 || |acc.users| != 0 then
      (db.(commentMap := db.commentMap + acc.comments, userMap := db.userMap + acc.users), true)
    else (db, shouldWriteDB)
  }

  /**
   * The same step as written (main.go:1429-1438): `None` where an entry is
   * due for a map that was never made, and the process panics; otherwise
   * the corrected step's result.
   */
  ghost function AddCollected(db: JournalDB, shouldWriteDB: bool, made: MapsMade, acc: MetaAcc): (r: Option<(JournalDB, bool)>)
    ensures r.None? <==> (|acc.comments| != 0 && !made.comments) || (|acc.users| != 0 && !made.users)
    ensures r.Some? ==> r.value == AddCollectedCorrected(db, shouldWriteDB, acc)
  {
    if |acc.comments| != 0 && !made.comments then None
    else if |acc.users| != 0 && !made.users then None
    else if |acc.comments| != 0 || |acc.users| != 0 then
      Some((db.(commentMap := db.commentMap + acc.comments, userMap := db.userMap + acc.users), true))
    else Some((db, shouldWriteDB))
  }

  /** Once both maps are made, the step as written never panics. */
  lemma AddCollectedWithMapsMade(db: JournalDB, shouldWriteDB: bool, acc: MetaAcc)
    ensures AddCollected(db, shouldWriteDB, MapsMade(true, true), acc) == Some(AddCollectedCorrected(db, shouldWriteDB, acc))
  {
  }

  /** A comment collected for a journal whose comment map was never made panics. */
  lemma UnmadeCommentMapPanics(db: JournalDB, shouldWriteDB: bool)
    ensures AddCollected(db, shouldWriteDB, MapsMade(false, false), MetaAcc(map[7 := CommentMeta(1, "")], map[], 7)).None?
    ensures AddCollectedCorrected(db, shouldWriteDB, MetaAcc(map[7 := CommentMeta(1, "")], map[], 7)).1
  {
    assert |map[7 := CommentMeta(1, "")]| == 1;
  }

  /**
   * `dumpJournalComments`, after the log line. It returns the `startid`
   * of every request of each pass, and `halted` when the script ran out
   * or the process panicked.
   */
  method DumpJournalComments(jcx: JournalContext, disk: Disk, metaAnswers: seq<Fetch<MetaChunk>>,
                             bodyAnswers: seq<Fetch<seq<BodyComment>>>)
    returns (r: Option<Report>, halted: bool, metaStarts: seq<int>, bodyStarts: seq<int>)
    modifies jcx, disk
    ensures disk.failing == old(disk.failing) && disk.unreadable == old(disk.unreadable)
    ensures jcx.newEntries == old(jcx.newEntries) && jcx.origDbLastSync == old(jcx.origDbLastSync)
    ensures jcx.db.lastSync == old(jcx.db.lastSync) && jcx.made == old(jcx.made)
    ensures var maxStored := MaxStoredId(old(jcx.db.commentMap));
      var meta := MetaRun(MetaAcc(map[], map[], maxStored), [], metaAnswers);
      && metaStarts == meta.starts
      && (!meta.end.Finished? ==>
            && r == (if meta.end.Failed? then Some(meta.end.report) else None) && halted == meta.end.CutOff?
            && bodyStarts == [] && jcx.db == old(jcx.db) && jcx.shouldWriteDB == old(jcx.shouldWriteDB)
            && jcx.newComments == old(jcx.newComments) && disk.files == old(disk.files))
      && (meta.end.Finished? ==>
            var k := Known(meta.acc.comments, meta.acc.users, old(jcx.db.commentMap), old(jcx.db.userMap));
            var body := BodyRun(BodyState(maxStored, old(jcx.newComments), old(disk.files)), [], meta.acc.maxId, bodyAnswers, k,
                                jcx.dir, disk.failing, disk.unreadable);
            var added := AddCollected(old(jcx.db), old(jcx.shouldWriteDB), old(jcx.made), meta.acc);
            && bodyStarts == body.starts
            && jcx.newComments == body.state.newComments && disk.files == body.state.files
            && r == (if body.end.Failed? then Some(body.end.report) else None)
            && halted == (body.end.CutOff? || (body.end.Finished? && added.None?))
            && (!body.end.Finished? || added.None? ==> jcx.db == old(jcx.db) && jcx.shouldWriteDB == old(jcx.shouldWriteDB))
            && (body.end.Finished? && added.Some? ==> (jcx.db, jcx.shouldWriteDB) == added.value))
  {
    var maxStored := MaxStoredCommentId(jcx.db.commentMap);
    var meta := MetaPass(maxStored, metaAnswers);
    metaStarts, bodyStarts := meta.starts, [];
    if !meta.end.Finished? {
      r := if meta.end.Failed? then Some(meta.end.report) else None;
      return r, meta.end.CutOff?, metaStarts, bodyStarts;
    }
    var k := Known(meta.acc.comments, meta.acc.users, jcx.db.commentMap, jcx.db.userMap);
    var end;
    r, end, bodyStarts := BodyPass(jcx, disk, maxStored, meta.acc.maxId, bodyAnswers, k);
    halted := end.CutOff?;
    if !end.Finished? {
      return;
    }
    halted := AddCollectedMeta(jcx, meta.acc);
  }

  /**
   * The meta data collected by both passes go into the journal DB, which
   * then has to be written; `panicked` when an entry is due for a map that
   * was never made.
   */
  method AddCollectedMeta(jcx: JournalContext, acc: MetaAcc) returns (panicked: bool)
    modifies jcx
    ensures panicked <==> AddCollected(old(jcx.db), old(jcx.shouldWriteDB), old(jcx.made), acc).None?
    ensures panicked ==> jcx.db == old(jcx.db) && jcx.shouldWriteDB == old(jcx.shouldWriteDB)
    ensures !panicked ==> (jcx.db, jcx.shouldWriteDB) == AddCollected(old(jcx.db), old(jcx.shouldWriteDB), old(jcx.made), acc).value
    ensures jcx.newComments == old(jcx.newComments) && jcx.newEntries == old(jcx.newEntries)
    ensures jcx.origDbLastSync == old(jcx.origDbLastSync) && jcx.made == old(jcx.made)
  {
    if (|acc.comments| != 0 && !jcx.made.comments) || (|acc.users| != 0 && !jcx.made.users) {
      return true;
    }
    panicked := false;
    if |acc.comments| != 0 || |acc.users| != 0 {
      var commentMap := SetAll(jcx.db.commentMap, acc.comments);
      var userMap := SetAll(jcx.db.userMap, acc.users);
      jcx.db := jcx.db.(commentMap := commentMap, userMap := userMap);
      jcx.shouldWriteDB := true;
    }
  }
}
