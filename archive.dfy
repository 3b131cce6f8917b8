/**
 * The archive on disk, as the engines see it: a map from paths to file
 * contents, written only through `writeFileTempRename`
 * (main.go:110-119), which either replaces a file's whole content or
 * leaves it untouched.
 */
module Archive {
  import opened Wrappers
  import opened StoreFormat

  /** One archived comment, as stored in a per-post comment file (main.go:1261-1271). */
  datatype CommentRecord = CommentRecord(
    id: int,
    state: string,
    user: string,
    parentId: string,   // empty for a comment on the post itself
    date: string,
    subject: string,
    body: string)

  /** What a file holds, at the level of detail the engines need. */
  datatype FileContent =
    | EventXml(text: string)                                  // an entry file, `L-<id>`
    | CommentXml(comments: seq<CommentRecord>)                // a comment file, `C-<post id>`
    | LineDb(items: seq<Item>, parseError: Option<string>)    // a linedb file: the items read, then the decoder's error
    | PictureData(data: seq<bv8>)                             // a user picture
    | Empty                                                   // a file of zero bytes
    | Garbled                                                 // anything no reader of this model accepts

  /** The outcome of `ioutil.ReadFile`. */
  datatype ReadResult = NotExist | ReadFailed(error: string) | Contents(content: FileContent)

  /**
   * A file's content as the `linedb` decoder sees it: the items it reads
   * and the error `GetError` reports. A file of zero bytes has no items;
   * content of any other kind gives no items and a decoder error.
   */
  function AsLineDb(c: FileContent): (r: (seq<Item>, Option<string>))
    ensures c.LineDb? ==> r == (c.items, c.parseError)
    ensures c.Empty? ==> r == ([], None)
  {
    match c
    case LineDb(items, parseError) => (items, parseError)
    case Empty => ([], None)
    case _ => ([], Some("not a linedb file"))
  }

  /**
   * `filepath.Join(dir, name)` for a plain file name, without the cleaning
   * `filepath.Join` does (`.` + `a` gives `./a` here, `a` in Go).
   */
  function JoinPath(dir: string, name: string): string {
    dir + "/" + name
  }

  /**
   * Reading `path` from an archive with these files, where the paths of
   * `unreadable` fail with their error.
   */
  function ReadPath(files: map<string, FileContent>, unreadable: map<string, string>, path: string): (r: ReadResult)
    ensures r.ReadFailed? <==> path in unreadable
    ensures r.Contents? ==> path in files && r.content == files[path]
    ensures r.NotExist? <==> path !in unreadable && path !in files
  {
    if path in unreadable then ReadFailed(unreadable[path])
    else if path in files then Contents(files[path])
    else NotExist
  }

  class Disk {
    /** The files of the archive and their contents. */
    var files: map<string, FileContent>
    /** Paths whose write or rename fails (disk full, permissions), with the error. */
    var failing: map<string, string>
    /** Paths whose read fails with an error other than "does not exist". */
    var unreadable: map<string, string>

    constructor (files: map<string, FileContent>, failing: map<string, string>, unreadable: map<string, string>)
      ensures this.files == files && this.failing == failing && this.unreadable == unreadable
    {
      this.files := files;
      this.failing := failing;
      this.unreadable := unreadable;
    }

    /** `ioutil.ReadFile`. */
    function Read(path: string): (r: ReadResult)
      reads this
      ensures r == ReadPath(files, unreadable, path)
    {
      ReadPath(files, unreadable, path)
    }

    /**
     * `writeFileTempRename`: write to `<path>.tmp`, then rename it onto
     * `path`. The target ends with either its old content or the whole new
     * content, never a part of it.
     */
    method WriteFileTempRename(path: string, content: FileContent) returns (err: Option<string>)
      modifies this
      ensures failing == old(failing) && unreadable == old(unreadable)
      ensures err.Some? <==> path in failing
      ensures err.Some? ==> err.value == failing[path] && files == old(files)
      ensures err.None? ==> files == old(files)[path := content]
    {
      if path in failing {
        err := Some(failing[path]);
      } else {
        files := files[path := content];
        err := None;
      }
    }
  }
}
