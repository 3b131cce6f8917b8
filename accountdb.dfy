/**
 * The account-wide state file `account.linedb` (main.go:423-482): the
 * user-picture file counter, the default picture's URL, and the URL to
 * file-name and keyword to URL maps.
 */
module AccountDb {
  import opened Wrappers
  import opened Reports
  import opened Ordering
  import opened StoreFormat
  import opened Archive

  /** The contents of an `accountData` record, as a value. */
  datatype AccountState = AccountState(
    fileCounter: int,
    pictureDefaultUrl: string,
    pictureUrlFileMap: map<string, string>,
    pictureKeywordUrlMap: map<string, string>)

  const AccountDataDBFileName: string := "account.linedb"

  /** The zero record `readAccountData` starts from. */
  const EmptyAccount: AccountState := AccountState(0, "", map[], map[])

  /** The items `writeAccountData` emits. */
  ghost function EncodeAccountData(s: AccountState): (items: seq<Item>)
    ensures |items| == 4
  {
    [ Scalar("fileCounter", IntField(s.fileCounter)),
      Scalar("pictureDefaultUrl", StrField(s.pictureDefaultUrl)),
      StringTable("pictureUrlFileMap", s.pictureUrlFileMap),
      StringTable("pictureKeywordUrlMap", s.pictureKeywordUrlMap) ]
  }

  /** What the decoder loop of `readAccountData` does with one item; unknown items are ignored. */
  function ApplyAccountItem(s: AccountState, item: Item): AccountState {
    match item
    case Scalar(name, value) =>
      if name == "fileCounter" && value.IntField? then s.(fileCounter := value.i)
      else if name == "pictureDefaultUrl" && value.StrField? then s.(pictureDefaultUrl := value.s)
      else s
    case Table(name, rows) =>
      if name == "pictureUrlFileMap" then
        s.(pictureUrlFileMap := ApplyRows(s.pictureUrlFileMap, rows, ReadStringRow))
      else if name == "pictureKeywordUrlMap" then
        s.(pictureKeywordUrlMap := ApplyRows(s.pictureKeywordUrlMap, rows, ReadStringRow))
      else s
  }

  function ApplyAccountItems(s: AccountState, items: seq<Item>): AccountState
    decreases |items|
  {
    if items == [] then s else ApplyAccountItems(ApplyAccountItem(s, items[0]), items[1..])
  }

  lemma ApplyAccountItemsFour(s: AccountState, a: Item, b: Item, c: Item, d: Item)
    ensures ApplyAccountItems(s, [a, b, c, d])
         == ApplyAccountItem(ApplyAccountItem(ApplyAccountItem(ApplyAccountItem(s, a), b), c), d)
  {
    var s1 := ApplyAccountItem(s, a);
    var s2 := ApplyAccountItem(s1, b);
    var s3 := ApplyAccountItem(s2, c);
    assert [a, b, c, d][1..] == [b, c, d];
    assert [b, c, d][1..] == [c, d];
    assert [c, d][1..] == [d];
    assert [d][1..] == [];
    assert ApplyAccountItems(s3, [d]) == ApplyAccountItem(s3, d);
    assert ApplyAccountItems(s2, [c, d]) == ApplyAccountItems(s3, [d]);
    assert ApplyAccountItems(s1, [b, c, d]) == ApplyAccountItems(s2, [c, d]);
  }

  lemma UrlFileTableReadBack(t: AccountState, m: map<string, string>)
    requires t.pictureUrlFileMap == map[]
    ensures ApplyAccountItem(t, StringTable("pictureUrlFileMap", m)) == t.(pictureUrlFileMap := m)
  {
    StringTableReadBack("pictureUrlFileMap", map[], m);
    assert map[] + m == m;
  }

  lemma KeywordTableReadBack(t: AccountState, m: map<string, string>)
    requires t.pictureKeywordUrlMap == map[]
    ensures ApplyAccountItem(t, StringTable("pictureKeywordUrlMap", m)) == t.(pictureKeywordUrlMap := m)
  {
    StringTableReadBack("pictureKeywordUrlMap", map[], m);
    assert map[] + m == m;
  }

  /** Round trip: reading back what `writeAccountData` emits gives the same record. */
  lemma AccountDataRoundTrip(s: AccountState)
    ensures ApplyAccountItems(EmptyAccount, EncodeAccountData(s)) == s
  {
    var items := EncodeAccountData(s);
    ApplyAccountItemsFour(EmptyAccount, items[0], items[1], items[2], items[3]);
    assert items == [items[0], items[1], items[2], items[3]];
    var s2 := AccountState(s.fileCounter, s.pictureDefaultUrl, map[], map[]);
    assert ApplyAccountItem(ApplyAccountItem(EmptyAccount, items[0]), items[1]) == s2;
    var s3 := s2.(pictureUrlFileMap := s.pictureUrlFileMap);
    UrlFileTableReadBack(s2, s.pictureUrlFileMap);
    KeywordTableReadBack(s3, s.pictureKeywordUrlMap);
  }

  /** The decoder loop of `readAccountData` (main.go:455-477). */
  method DecodeAccountItems(start: AccountState, items: seq<Item>) returns (s: AccountState)
    ensures s == ApplyAccountItems(start, items)
  {
    s := start;
    for i := 0 to |items|
      invariant ApplyAccountItems(s, items[i..]) == ApplyAccountItems(start, items)
    {
      assert items[i..][0] == items[i] && items[i..][1..] == items[i + 1..];
      match items[i] {
        case Scalar(name, value) =>
          if name == "fileCounter" && value.IntField? {
            s := s.(fileCounter := value.i);
          } else if name == "pictureDefaultUrl" && value.StrField? {
            s := s.(pictureDefaultUrl := value.s);
          }
        case Table(name, rows) =>
          if name == "pictureUrlFileMap" {
            var m := FoldRows(s.pictureUrlFileMap, rows, ReadStringRow);
            s := s.(pictureUrlFileMap := m);
          } else if name == "pictureKeywordUrlMap" {
            var m := FoldRows(s.pictureKeywordUrlMap, rows, ReadStringRow);
            s := s.(pictureKeywordUrlMap := m);
          }
      }
    }
    assert items[|items|..] == [];
  }

  /** `accountData`, which the picture engine updates in place. */
  class AccountData {
    var fileCounter: int
    var pictureDefaultUrl: string
    var pictureUrlFileMap: map<string, string>
    var pictureKeywordUrlMap: map<string, string>

    constructor (s: AccountState)
      ensures State() == s
    {
      fileCounter := s.fileCounter;
      pictureDefaultUrl := s.pictureDefaultUrl;
      pictureUrlFileMap := s.pictureUrlFileMap;
      pictureKeywordUrlMap := s.pictureKeywordUrlMap;
    }

    function State(): AccountState
      reads this
    {
      AccountState(fileCounter, pictureDefaultUrl, pictureUrlFileMap, pictureKeywordUrlMap)
    }
  }

  function AccountDbPath(accountDataDir: string): string {
    JoinPath(accountDataDir, AccountDataDBFileName)
  }

  /** `writeAccountData`. */
  method WriteAccountData(data: AccountData, disk: Disk, accountDataDir: string) returns (r: Option<Report>)
    modifies disk
    ensures disk.failing == old(disk.failing) && disk.unreadable == old(disk.unreadable)
    ensures var path := AccountDbPath(accountDataDir);
      if path in disk.failing then
        r == Some(WrapErr(disk.failing[path], "failed to write account data db file " + path))
        && disk.files == old(disk.files)
      else
        r.None? && disk.files == old(disk.files)[path := LineDb(EncodeAccountData(data.State()), None)]
  {
    var urlFiles := AddSortedMapKeyValue("pictureUrlFileMap", data.pictureUrlFileMap);
    var keywordUrls := AddSortedMapKeyValue("pictureKeywordUrlMap", data.pictureKeywordUrlMap);
    var items := [ Scalar("fileCounter", IntField(data.fileCounter)),
                   Scalar("pictureDefaultUrl", StrField(data.pictureDefaultUrl)),
                   urlFiles,
                   keywordUrls ];
    var path := JoinPath(accountDataDir, AccountDataDBFileName);
    var err := disk.WriteFileTempRename(path, LineDb(items, None));
    if err.Some? {
      return Some(WrapErr(err.value, "failed to write account data db file " + path));
    }
    r := None;
  }

  /**
   * `readAccountData`: a missing file gives the zero record; another read
   * error, or an error the decoder reports after its loop, gives no record.
   */
  method ReadAccountData(disk: Disk, accountDataDir: string) returns (data: AccountData?, r: Option<Report>)
    ensures var path := AccountDbPath(accountDataDir);
      if path in disk.unreadable then
        data == null && r == Some(WrapErr(disk.unreadable[path], ""))
      else if path !in disk.files then
        data != null && fresh(data) && r.None? && data.State() == EmptyAccount
      else
        var (items, parseError) := AsLineDb(disk.files[path]);
        if parseError.Some? then
          data == null
          && r == Some(WrapErr(parseError.value, "error while parsing account data file " + path + " as linedb"))
        else
          data != null && fresh(data) && r.None? && data.State() == ApplyAccountItems(EmptyAccount, items)
  {
    var path := JoinPath(accountDataDir, AccountDataDBFileName);
    var read := disk.Read(path);
    match read {
      case ReadFailed(e) =>
        return null, Some(WrapErr(e, ""));
      case NotExist =>
        data := new AccountData(EmptyAccount);
        return data, None;
      case Contents(c) =>
        var (items, parseError) := AsLineDb(c);
        var s := DecodeAccountItems(EmptyAccount, items);
        if parseError.Some? {
          return null, Some(WrapErr(parseError.value, "error while parsing account data file " + path + " as linedb"));
        }
        data := new AccountData(s);
        r := None;
    }
  }
}
