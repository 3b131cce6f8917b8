/**
 * The user-picture engine of `dumpAccountData` (main.go:972-1094): the
 * account's picture keywords and URLs are read from a flat response, and
 * every picture URL not yet archived is downloaded and stored as
 * `user-picture-<n>[-<keyword>]<ext>` in the account data directory.
 */
module Pictures {
  import opened Wrappers
  import opened Reports
  import opened Decimal
  import opened FlatProtocol
  import opened Archive
  import opened AccountDb

  /** A downloaded picture: its bytes and the `Content-Type` header. */
  datatype Download = Download(data: seq<bv8>, contentType: string)

  /**
   * What the engine asks of the outside world: the download (`http.Get`,
   * then reading and closing the body; `None` when any of them fails),
   * `mime.ExtensionsByType` (empty on error) and
   * `convertPictureKeywordToFilename`.
   */
  datatype PictureServices = PictureServices(
    download: string -> Option<Download>,
    extensionsByType: string -> seq<string>,
    keywordToFilename: string -> string)

  /** The file extension: the first one MIME knows for the content type, else `.bin`. */
  function Extension(svc: PictureServices, contentType: string): (ext: string)
    ensures contentType == "" || |svc.extensionsByType(contentType)| == 0 ==> ext == ".bin"
    ensures contentType != "" && |svc.extensionsByType(contentType)| > 0 ==> ext == svc.extensionsByType(contentType)[0]
  {
    if contentType == "" then ".bin"
    else
      var extensions := svc.extensionsByType(contentType);
      if |extensions| == 0 then ".bin" else extensions[0]
  }

  /** `fmt.Sprintf("user-picture-%d%s%s%s", counter, separator, fileName, extension)`. */
  function PictureFileName(counter: int, keyword: string, fileKeyword: string, extension: string): string {
    "user-picture-" + FormatInt(counter) + (if keyword == "" then "" else "-" + fileKeyword) + extension
  }

  /** A URL the engine does not fetch: empty, or already mapped to a non-empty file name. */
  predicate KnownUrl(s: AccountState, url: string) {
    url == "" || (url in s.pictureUrlFileMap && s.pictureUrlFileMap[url] != "")
  }

  /**
   * One picture to consider: `keyword` is `None` for the default picture
   * (keyword index -1) and the keyword of the picture otherwise.
   */
  datatype PictureCall = PictureCall(keyword: Option<string>, url: string)

  /** What happened to one picture. */
  datatype StepOutcome = Skipped | DownloadFailed | Stored(file: string) | WriteFailed(error: string)

  predicate SkipsCall(s: AccountState, c: PictureCall) {
    KnownUrl(s, c.url) || c.keyword == Some("")
  }

  /**
   * The closure `fetchAnsStorePictureUrl` (main.go:1008-1076) on the
   * account record: the new record and what happened. `failing` holds the
   * paths whose write fails. The counter is raised before the write, so
   * a failed write leaves it raised.
   */
  function PictureStep(s: AccountState, c: PictureCall, svc: PictureServices, dir: string, failing: map<string, string>)
    : (r: (AccountState, StepOutcome))
    ensures r.1.Skipped? <==> SkipsCall(s, c)
    ensures r.1.DownloadFailed? <==> !SkipsCall(s, c) && svc.download(c.url).None?
    ensures r.1.Skipped? || r.1.DownloadFailed? ==> r.0 == s
    ensures r.1.WriteFailed? ==> r.0 == s.(fileCounter := s.fileCounter + 1)
    ensures r.1.Stored? ==>
      var keyword := if c.keyword.Some? then c.keyword.value else "";
      && r.0.fileCounter == s.fileCounter + 1
      && r.1.file == PictureFileName(s.fileCounter + 1, keyword, svc.keywordToFilename(keyword),
                                     Extension(svc, svc.download(c.url).value.contentType))
      && r.0.pictureUrlFileMap == s.pictureUrlFileMap[c.url := r.1.file]
      && (c.keyword.None? ==> r.0.pictureDefaultUrl == c.url && r.0.pictureKeywordUrlMap == s.pictureKeywordUrlMap)
      && (c.keyword.Some? ==> r.0.pictureDefaultUrl == s.pictureDefaultUrl
                              && r.0.pictureKeywordUrlMap == s.pictureKeywordUrlMap[keyword := c.url])
  {
    if SkipsCall(s, c) then (s, Skipped)
    else
      match svc.download(c.url)
      case None => (s, DownloadFailed)
      case Some(d) =>
        var keyword := if c.keyword.Some? then c.keyword.value else "";
        var counter := s.fileCounter + 1;
        var file := PictureFileName(counter, keyword, svc.keywordToFilename(keyword), Extension(svc, d.contentType));
        var path := JoinPath(dir, file);
        if path in failing then (s.(fileCounter := counter), WriteFailed(failing[path]))
        else
          var urlFiles := s.pictureUrlFileMap[c.url := file];
          if keyword == "" then (AccountState(counter, c.url, urlFiles, s.pictureKeywordUrlMap), Stored(file))
          else (AccountState(counter, s.pictureDefaultUrl, urlFiles, s.pictureKeywordUrlMap[keyword := c.url]), Stored(file))
  }

  /** The files after one step: a stored picture is written, nothing else is. */
  function StepFiles(files: map<string, FileContent>, c: PictureCall, out: StepOutcome, svc: PictureServices, dir: string)
    : map<string, FileContent>
  {
    if out.Stored? && svc.download(c.url).Some? then
      files[JoinPath(dir, out.file) := PictureData(svc.download(c.url).value.data)]
    else files
  }

  /** The outcome of a run over several pictures. */
  datatype RunResult = RunResult(state: AccountState, files: map<string, FileContent>, updated: bool, err: Option<Report>)

  /**
   * The pictures handled in order, stopping at the first failed write:
   * the final record, the files, whether any picture was stored, and the
   * error.
   */
  function PictureRun(s: AccountState, files: map<string, FileContent>, calls: seq<PictureCall>,
                      svc: PictureServices, dir: string, failing: map<string, string>): RunResult
    decreases |calls|
  {
    if calls == [] then RunResult(s, files, false, None)
    else
      var (s1, out) := PictureStep(s, calls[0], svc, dir, failing);
      if out.WriteFailed? then RunResult(s1, files, false, Some(WrapErr(out.error, "")))
      else
        var rest := PictureRun(s1, StepFiles(files, calls[0], out, svc, dir), calls[1..], svc, dir, failing);
        rest.(updated := out.Stored? || rest.updated)
  }

  /** The pictures of one account: the default one first, then one per keyword. */
  function PictureCalls(defaultUrl: string, keywords: seq<string>, urls: seq<string>): (calls: seq<PictureCall>)
    requires |keywords| == |urls|
    ensures |calls| == |urls| + 1 && calls[0] == PictureCall(None, defaultUrl)
    ensures forall i :: 0 <= i < |urls| ==> calls[i + 1] == PictureCall(Some(keywords[i]), urls[i])
  {
    [PictureCall(None, defaultUrl)] + seq(|urls|, i requires 0 <= i < |urls| => PictureCall(Some(keywords[i]), urls[i]))
  }

  /** The file counter never goes down. */
  lemma {:induction false} PictureRunCounterGrows(s: AccountState, files: map<string, FileContent>, calls: seq<PictureCall>,
                                                  svc: PictureServices, dir: string, failing: map<string, string>)
    ensures PictureRun(s, files, calls, svc, dir, failing).state.fileCounter >= s.fileCounter
    decreases |calls|
  {
    if calls != [] {
      var (s1, out) := PictureStep(s, calls[0], svc, dir, failing);
      if !out.WriteFailed? {
        PictureRunCounterGrows(s1, StepFiles(files, calls[0], out, svc, dir), calls[1..], svc, dir, failing);
      }
    }
  }

  /**
   * A run that stores nothing and fails nowhere changes nothing: the
   * record and the files are as before.
   */
  lemma {:induction false} NothingStoredNothingChanged(s: AccountState, files: map<string, FileContent>, calls: seq<PictureCall>,
                                                       svc: PictureServices, dir: string, failing: map<string, string>)
    requires !PictureRun(s, files, calls, svc, dir, failing).updated
    requires PictureRun(s, files, calls, svc, dir, failing).err.None?
    ensures PictureRun(s, files, calls, svc, dir, failing).state == s
    ensures PictureRun(s, files, calls, svc, dir, failing).files == files
    decreases |calls|
  {
    if calls != [] {
      var (s1, out) := PictureStep(s, calls[0], svc, dir, failing);
      assert !out.Stored? && !out.WriteFailed?;
      NothingStoredNothingChanged(s1, StepFiles(files, calls[0], out, svc, dir), calls[1..], svc, dir, failing);
    }
  }

  /** A call the engine will not act on again: its URL is known, its keyword empty, or it cannot be downloaded. */
  predicate Settled(s: AccountState, c: PictureCall, svc: PictureServices) {
    SkipsCall(s, c) || svc.download(c.url).None?
  }

  /** A step keeps every settled call settled, and settles its own call unless its write failed. */
  lemma StepSettles(s: AccountState, c: PictureCall, other: PictureCall, svc: PictureServices, dir: string,
                    failing: map<string, string>)
    ensures var (s1, out) := PictureStep(s, c, svc, dir, failing);
      && (Settled(s, other, svc) ==> Settled(s1, other, svc))
      && (!out.WriteFailed? ==> Settled(s1, c, svc))
  {
    var (s1, out) := PictureStep(s, c, svc, dir, failing);
    if out.Stored? {
      assert "user-picture-" <= out.file;
    }
  }

  /** After a run without error, every call of the run is settled. */
  lemma {:induction false} RunSettlesAll(s: AccountState, files: map<string, FileContent>, calls: seq<PictureCall>,
                                         svc: PictureServices, dir: string, failing: map<string, string>)
    requires PictureRun(s, files, calls, svc, dir, failing).err.None?
    ensures forall c :: c in calls ==> Settled(PictureRun(s, files, calls, svc, dir, failing).state, c, svc)
    ensures forall c :: Settled(s, c, svc) ==> Settled(PictureRun(s, files, calls, svc, dir, failing).state, c, svc)
    decreases |calls|
  {
    if calls != [] {
      var (s1, out) := PictureStep(s, calls[0], svc, dir, failing);
      var files1 := StepFiles(files, calls[0], out, svc, dir);
      RunSettlesAll(s1, files1, calls[1..], svc, dir, failing);
      forall c | Settled(s, c, svc)
        ensures Settled(s1, c, svc)
      {
        StepSettles(s, calls[0], c, svc, dir, failing);
      }
      StepSettles(s, calls[0], calls[0], svc, dir, failing);
      assert forall c :: c in calls ==> c == calls[0] || c in calls[1..];
    }
  }

  /** Calls that are all settled leave the record and the files alone. */
  lemma {:induction false} SettledRunIsQuiet(s: AccountState, files: map<string, FileContent>, calls: seq<PictureCall>,
                                             svc: PictureServices, dir: string, failing: map<string, string>)
    requires forall c :: c in calls ==> Settled(s, c, svc)
    ensures PictureRun(s, files, calls, svc, dir, failing) == RunResult(s, files, false, None)
    decreases |calls|
  {
    if calls != [] {
      assert calls[0] in calls;
      assert forall c :: c in calls[1..] ==> c in calls;
      SettledRunIsQuiet(s, files, calls[1..], svc, dir, failing);
    }
  }

  /**
   * Idempotence: running the engine again with the same answers, on the
   * record and files a run without error left, downloads and stores nothing.
   */
  lemma PictureRunIdempotent(s: AccountState, files: map<string, FileContent>, calls: seq<PictureCall>,
                             svc: PictureServices, dir: string, failing: map<string, string>)
    requires PictureRun(s, files, calls, svc, dir, failing).err.None?
    ensures var first := PictureRun(s, files, calls, svc, dir, failing);
      PictureRun(first.state, first.files, calls, svc, dir, failing) == RunResult(first.state, first.files, false, None)
  {
    var first := PictureRun(s, files, calls, svc, dir, failing);
    RunSettlesAll(s, files, calls, svc, dir, failing);
    SettledRunIsQuiet(first.state, first.files, calls, svc, dir, failing);
  }

  /** The number of leading decimal digits of a string. */
  function LeadingDigits(s: string): (n: nat)
    ensures n <= |s|
  {
    if s == [] || !IsDigit(s[0]) then 0 else 1 + LeadingDigits(s[1..])
  }

  lemma {:induction false} LeadingDigitsAppend(a: string, c: string)
    requires AllDigits(a)
    requires c == [] || !IsDigit(c[0])
    ensures LeadingDigits(a + c) == |a|
  {
    if a == [] {
      assert a + c == c;
    } else {
      assert (a + c)[0] == a[0] && (a + c)[1..] == a[1..] + c;
      LeadingDigitsAppend(a[1..], c);
    }
  }

  /**
   * Different counters give different picture file names, whatever the
   * keywords: the digits end where the separator or the extension begins.
   */
  lemma PictureFileNameInjective(c1: int, k1: string, f1: string, e1: string,
                                 c2: int, k2: string, f2: string, e2: string)
    requires 0 <= c1 <= MaxInt64 && 0 <= c2 <= MaxInt64
    requires |e1| > 0 && e1[0] == '.' && |e2| > 0 && e2[0] == '.'
    requires PictureFileName(c1, k1, f1, e1) == PictureFileName(c2, k2, f2, e2)
    ensures c1 == c2
  {
    var d1, d2 := FormatInt(c1), FormatInt(c2);
    var t1 := (if k1 == "" then "" else "-" + f1) + e1;
    var t2 := (if k2 == "" then "" else "-" + f2) + e2;
    var n1 := PictureFileName(c1, k1, f1, e1);
    var n2 := PictureFileName(c2, k2, f2, e2);
    assert n1 == "user-picture-" + (d1 + t1);
    assert n2 == "user-picture-" + (d2 + t2);
    assert d1 + t1 == n1[13..] == n2[13..] == d2 + t2;
    assert t1[0] == '-' || t1[0] == '.';
    assert t2[0] == '-' || t2[0] == '.';
    LeadingDigitsAppend(d1, t1);
    LeadingDigitsAppend(d2, t2);
    assert d1 == (d1 + t1)[..|d1|];
    assert d2 == (d2 + t2)[..|d2|];
    FormatIntInjective(c1, c2);
  }

  /**
   * `fetchAnsStorePictureUrl`: handles one picture and reports whether it
   * was stored (the closure sets the captured `updated` instead).
   */
  method FetchAndStorePictureUrl(data: AccountData, disk: Disk, dir: string, c: PictureCall, svc: PictureServices)
    returns (r: Option<Report>, stored: bool)
    modifies data, disk
    ensures disk.failing == old(disk.failing) && disk.unreadable == old(disk.unreadable)
    ensures var (s1, out) := PictureStep(old(data.State()), c, svc, dir, old(disk.failing));
      && data.State() == s1
      && stored == out.Stored?
      && (if out.WriteFailed? then r == Some(WrapErr(out.error, "")) else r.None?)
      && disk.files == StepFiles(old(disk.files), c, out, svc, dir)
  {
    if c.url == "" || (c.url in data.pictureUrlFileMap && data.pictureUrlFileMap[c.url] != "") {
      return None, false;
    }
    var keyword := "";
    if c.keyword.Some? {
      keyword := c.keyword.value;
      if keyword == "" {
        return None, false;
      }
    }
    var got := svc.download(c.url);
    if got.None? {
      return None, false;
    }
    var extension := Extension(svc, got.value.contentType);
    var separator, fileName := "", "";
    if keyword != "" {
      separator := "-";
      fileName := svc.keywordToFilename(keyword);
    }
    data.fileCounter := data.fileCounter + 1;
    var pictureFile := "user-picture-" + FormatInt(data.fileCounter) + (separator + fileName) + extension;
    var err := disk.WriteFileTempRename(JoinPath(dir, pictureFile), PictureData(got.value.data));
    if err.Some? {
      return Some(WrapErr(err.value, "")), false;
    }
    data.pictureUrlFileMap := data.pictureUrlFileMap[c.url := pictureFile];
    if keyword == "" {
      data.pictureDefaultUrl := c.url;
    } else {
      data.pictureKeywordUrlMap := data.pictureKeywordUrlMap[keyword := c.url];
    }
    return None, true;
  }

  /**
   * The pictures handled one after another by `fetchAnsStorePictureUrl`,
   * stopping at the first report; `updated` is the flag the closure sets.
   */
  method StorePictures(data: AccountData, disk: Disk, dir: string, calls: seq<PictureCall>, svc: PictureServices)
    returns (r: Option<Report>, updated: bool)
    modifies data, disk
    ensures disk.failing == old(disk.failing) && disk.unreadable == old(disk.unreadable)
    ensures var run := PictureRun(old(data.State()), old(disk.files), calls, svc, dir, old(disk.failing));
      data.State() == run.state && disk.files == run.files && r == run.err && updated == run.updated
  {
    ghost var whole := PictureRun(data.State(), disk.files, calls, svc, dir, disk.failing);
    updated := false;
    var i := 0;
    while i < |calls|
      invariant 0 <= i <= |calls|
      invariant disk.failing == old(disk.failing) && disk.unreadable == old(disk.unreadable)
      invariant var rest := PictureRun(data.State(), disk.files, calls[i..], svc, dir, disk.failing);
        whole == rest.(updated := updated || rest.updated)
    {
      ghost var s0 := data.State();
      ghost var f0 := disk.files;
      assert calls[i..][0] == calls[i] && calls[i..][1..] == calls[i + 1..];
      var stored;
      r, stored := FetchAndStorePictureUrl(data, disk, dir, calls[i], svc);
      updated := updated || stored;
      if r.Some? {
        return;
      }
      i := i + 1;
    }
    assert calls[|calls|..] == [];
    r := None;
  }

  /**
   * The report for keyword and URL arrays of different lengths. The
   * format string has four verbs for three arguments, the third a
   * boolean under `%s`, so the text is Go's rendering of those mistakes
   * and carries neither length.
   */
  const LengthMismatchMessage: string :=
    "pickw and pickwurl arrays in LJ flat response have different lengths, %!s(bool=true)d != %!d(MISSING)"

  /**
   * The end of `dumpAccountData` once the pictures are handled: the
   * report, the record and the files, with the account data file
   * written when a picture was stored.
   */
  ghost function FinishRun(run: RunResult, dir: string, failing: map<string, string>)
    : (r: (Option<Report>, map<string, FileContent>))
    ensures run.err.Some? || !run.updated ==> r == (run.err, run.files)
    ensures run.err.None? && run.updated ==>
      var path := AccountDbPath(dir);
      if path in failing then r == (Some(WrapErr(failing[path], "failed to write account data db file " + path)), run.files)
      else r == (None, run.files[path := LineDb(EncodeAccountData(run.state), None)])
  {
    if run.err.Some? || !run.updated then (run.err, run.files)
    else
      var path := AccountDbPath(dir);
      if path in failing then (Some(WrapErr(failing[path], "failed to write account data db file " + path)), run.files)
      else (None, run.files[path := LineDb(EncodeAccountData(run.state), None)])
  }

  /** The picture keywords and URLs a `login` response carries, when both arrays are well formed. */
  predicate PictureArrays(m: map<string, string>, keywords: seq<string>, urls: seq<string>) {
    HoldsArray("pickw", m, keywords) && HoldsArray("pickwurl", m, urls)
  }

  /**
   * `dumpAccountData`, after the log line: `mkdirErr` is the outcome of
   * creating the account data directory and `response` that of the
   * `login` call asking for picture keywords and URLs.
   */
  method DumpAccountData(data: AccountData, disk: Disk, dir: string, mkdirErr: Option<string>,
                         response: Result<map<string, string>, Report>, svc: PictureServices)
    returns (r: Option<Report>)
    modifies data, disk
    ensures disk.failing == old(disk.failing) && disk.unreadable == old(disk.unreadable)
    ensures mkdirErr.Some? ==>
      r == Some(WrapErr(mkdirErr.value, "failed to create directory for account data " + dir))
      && data.State() == old(data.State()) && disk.files == old(disk.files)
    ensures mkdirErr.None? && response.Err? ==>
      r == Some(response.error) && data.State() == old(data.State()) && disk.files == old(disk.files)
    ensures mkdirErr.None? && response.Ok? && !(exists keywords, urls :: PictureArrays(response.value, keywords, urls)) ==>
      r.Some? && data.State() == old(data.State()) && disk.files == old(disk.files)
    ensures mkdirErr.None? && response.Ok? && FlatArrayResult("pickw", response.value).Err? ==>
      r == Some(FlatArrayResult("pickw", response.value).error)
    ensures mkdirErr.None? && response.Ok? && FlatArrayResult("pickw", response.value).Ok?
            && FlatArrayResult("pickwurl", response.value).Err? ==>
      r == Some(FlatArrayResult("pickwurl", response.value).error)
    ensures mkdirErr.None? && response.Ok? ==>
      forall keywords, urls | PictureArrays(response.value, keywords, urls) && |keywords| != |urls| ::
        r == Some(ReportMsg(LengthMismatchMessage)) && data.State() == old(data.State()) && disk.files == old(disk.files)
    ensures mkdirErr.None? && response.Ok? ==>
      forall keywords, urls | PictureArrays(response.value, keywords, urls) && |keywords| == |urls| ::
        var run := PictureRun(old(data.State()), old(disk.files),
                              PictureCalls(Lookup(response.value, "defaultpicurl"), keywords, urls),
                              svc, dir, old(disk.failing));
        data.State() == run.state && (r, disk.files) == FinishRun(run, dir, old(disk.failing))
  {
    if mkdirErr.Some? {
      return Some(WrapErr(mkdirErr.value, "failed to create directory for account data " + dir));
    }
    if response.Err? {
      return Some(response.error);
    }
    var m := response.value;
    var keywordsResult := GetFlatArray("pickw", m);
    if keywordsResult.Err? {
      NoArrayWhenFlatArrayFails("pickw", m);
      return Some(keywordsResult.error);
    }
    var keywords := keywordsResult.value;
    var urlsResult := GetFlatArray("pickwurl", m);
    if urlsResult.Err? {
      NoArrayWhenFlatArrayFails("pickwurl", m);
      return Some(urlsResult.error);
    }
    var urls := urlsResult.value;
    assert PictureArrays(m, keywords, urls);
    forall keywords', urls' | PictureArrays(m, keywords', urls')
      ensures keywords' == keywords && urls' == urls
    {
      HoldsArrayUnique("pickw", m, keywords', keywords);
      HoldsArrayUnique("pickwurl", m, urls', urls);
    }
    if |keywords| != |urls| {
      return Some(ReportMsg(LengthMismatchMessage));
    }
    var updated;
    r, updated := StorePictures(data, disk, dir, PictureCalls(Lookup(m, "defaultpicurl"), keywords, urls), svc);
    if r.Some? {
      return;
    }
    if updated {
      r := WriteAccountData(data, disk, dir);
    }
  }

  /** A response holds at most one array under a name. */
  lemma HoldsArrayUnique(arrayName: string, m: map<string, string>, a: seq<string>, b: seq<string>)
    requires HoldsArray(arrayName, m, a) && HoldsArray(arrayName, m, b)
    ensures a == b
  {
    assert |a| == |b|;
    forall i | 0 <= i < |a|
      ensures a[i] == b[i]
    {
      var x := a[i];
      assert ElemKey(arrayName, i + 1) in m && m[ElemKey(arrayName, i + 1)] == x;
      assert ElemKey(arrayName, i + 1) in m && m[ElemKey(arrayName, i + 1)] == b[i];
    }
  }

  /** When the array cannot be read, the response holds no array under that name. */
  lemma NoArrayWhenFlatArrayFails(arrayName: string, m: map<string, string>)
    requires var parsed := ParseInt(Lookup(m, CountKey(arrayName)));
      !(parsed.Some? && parsed.value >= 0 && ElementsPresent(arrayName, m, parsed.value))
    ensures forall a :: !HoldsArray(arrayName, m, a)
  {
    forall a | HoldsArray(arrayName, m, a)
      ensures false
    {
      assert ElementsPresent(arrayName, m, |a|) by {
        forall k | 1 <= k <= |a|
          ensures ElemKey(arrayName, k) in m
        {
          var x := a[k - 1];
          assert ElemKey(arrayName, (k - 1) + 1) in m;
        }
      }
    }
  }
}
