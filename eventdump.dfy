/**
 * The entry-file serialiser `writeLJEventDump` (main.go:675-786): an
 * event received over XML-RPC is a dynamic value tree, written as
 * tag-based text with map keys in sorted order, one repeated tag per array
 * element and `<tag/>` for nil.
 */
module EventDump {
  import opened Wrappers
  import opened Reports
  import opened Decimal
  import opened Ordering
  import opened Archive

  /**
   * A value of an event as the XML-RPC client decodes it. `Unsupported`
   * stands for every other dynamic type (booleans, floats, dates, byte
   * strings), which the serialiser refuses by its Go type name.
   */
  datatype Value =
    | Str(s: string)
    | Int(i: int)
    | Map(entries: map<string, Value>)
    | Array(elems: seq<Value>)
    | Nil
    | Unsupported(typeName: string)

  /** `xml.Header`. */
  const XmlHeader: string := "<?xml version=\"1.0\" encoding=\"UTF-8\"?>\n"

  predicate IsNameStartChar(c: char) {
    ('A' <= c <= 'Z') || ('a' <= c <= 'z') || c == '_'
  }

  predicate IsNameChar(c: char) {
    IsNameStartChar(c) || ('0' <= c <= '9') || c == '-' || c == '.'
  }

  /**
   * `isValidXmlTagName`: ASCII letters and `_` anywhere, digits, `-` and
   * `.` after the first character. The empty name passes, as in the source.
   */
  predicate IsValidXmlTagName(s: string) {
    forall j :: 0 <= j < |s| ==> if j == 0 then IsNameStartChar(s[j]) else IsNameChar(s[j])
  }

  function EscapeChar(c: char): string {
    if c == '<' then "&lt;"
    else if c == '>' then "&gt;"
    else if c == '&' then "&amp;"
    else [c]
  }

  /** `addEscapeXmlValue`: `<`, `>` and `&` become entities, every other character is copied. */
  function Escape(s: string): string {
    if s == [] then [] else EscapeChar(s[0]) + Escape(s[1..])
  }

  /** The inverse reading of the three entities. */
  function Unescape(t: string): string {
    if t == [] then []
    else if |t| >= 4 && t[..4] == "&lt;" then ['<'] + Unescape(t[4..])
    else if |t| >= 4 && t[..4] == "&gt;" then ['>'] + Unescape(t[4..])
    else if |t| >= 5 && t[..5] == "&amp;" then ['&'] + Unescape(t[5..])
    else [t[0]] + Unescape(t[1..])
  }

  lemma {:induction false} EscapeAppend(a: string, b: string)
    ensures Escape(a + b) == Escape(a) + Escape(b)
  {
    if a == [] {
      assert a + b == b;
    } else {
      assert (a + b)[0] == a[0] && (a + b)[1..] == a[1..] + b;
      EscapeAppend(a[1..], b);
    }
  }

  /** Unescaping reads one escaped character off the front. */
  lemma UnescapeOne(c: char, rest: string)
    ensures Unescape(EscapeChar(c) + rest) == [c] + Unescape(rest)
  {
    var t := EscapeChar(c) + rest;
    if c == '<' {
      assert t[..4] == "&lt;" && t[4..] == rest;
    } else if c == '>' {
      assert t[..4] == "&gt;" && t[4..] == rest;
    } else if c == '&' {
      assert t[..5] == "&amp;";
      assert t[..4][1] == 'a';
      assert t[..4] != "&lt;" && t[..4] != "&gt;";
      assert t[5..] == rest;
    } else {
      assert t[0] == c && t[1..] == rest;
      assert |t| >= 4 ==> t[..4][0] == c;
      assert |t| >= 5 ==> t[..5][0] == c;
    }
  }

  /** Unescaping the escaped text gives the original text back. */
  lemma {:induction false} EscapeRoundTrip(s: string)
    ensures Unescape(Escape(s)) == s
  {
    if s != [] {
      assert Escape(s) == EscapeChar(s[0]) + Escape(s[1..]);
      UnescapeOne(s[0], Escape(s[1..]));
      EscapeRoundTrip(s[1..]);
      assert s == [s[0]] + s[1..];
    }
  }

  /** Escaped text has no raw `<` or `>`, so it cannot open or close a tag. */
  lemma {:induction false} EscapeHasNoMarkup(s: string)
    ensures '<' !in Escape(s) && '>' !in Escape(s)
  {
    if s != [] {
      EscapeHasNoMarkup(s[1..]);
      assert Escape(s) == EscapeChar(s[0]) + Escape(s[1..]);
    }
  }

  /** Text without the three special characters is written as it is. */
  lemma {:induction false} EscapePlain(s: string)
    requires '<' !in s && '>' !in s && '&' !in s
    ensures Escape(s) == s
  {
    if s != [] {
      assert s[0] in s && s[1..] <= s[1..];
      assert forall c :: c in s[1..] ==> c in s;
      EscapePlain(s[1..]);
      assert s == [s[0]] + s[1..];
    }
  }

  lemma Append(start: string, text: string, piece: string)
    ensures start + text + piece == start + (text + piece)
  {
  }

  ghost predicate AllKeysValid(m: map<string, Value>) {
    forall k :: k in m ==> IsValidXmlTagName(k)
  }

  /** The keys of a map in ascending order, as `sort.Strings` leaves them. */
  ghost function SortedKeys(m: map<string, Value>): (keys: seq<string>)
    ensures forall k :: k in keys <==> k in m
    ensures StrictlySorted(keys, StrLess)
  {
    StrLessIsStrictTotalOrder();
    SortedOf(m.Keys, StrLess)
  }

  /**
   * Whether `serializeTagValue` reports an error for a value: a map some of
   * whose keys cannot be tag names, an array (only a map entry may be one)
   * or an unsupported type. Errors deeper inside a map are not reported
   * (main.go:734, main.go:737).
   */
  ghost predicate Fails(v: Value) {
    match v
    case Map(m) => !AllKeysValid(m)
    case Array(_) => true
    case Unsupported(_) => true
    case _ => false
  }

  /**
   * What `serializeTagValue` writes for `tag` and `v`. A value that fails
   * stops after the opening tag.
   */
  ghost function TagText(tag: string, v: Value): string
    decreases v, 2
  {
    match v
    case Nil => "<" + tag + "/>\n"
    case Int(i) => "<" + tag + ">" + FormatInt(i) + ("</" + tag + ">\n")
    case Str(s) => "<" + tag + ">" + Escape(s) + ("</" + tag + ">\n")
    case Map(_) =>
      if Fails(v) then "<" + tag + ">" + "\n"
      else "<" + tag + ">" + "\n" + MapText(v) + ("</" + tag + ">\n")
    case _ => "<" + tag + ">"
  }

  /**
   * What `serializeMap` writes for a map value: nothing at all when some
   * key is not a valid tag name, otherwise one entry per key in ascending
   * key order.
   */
  ghost function MapText(v: Value): string
    requires v.Map?
    decreases v, 1
  {
    if !AllKeysValid(v.entries) then ""
    else
      var keys := SortedKeys(v.entries);
      EntriesText(v, keys, |keys|)
  }

  /** The entries for the first `n` keys. */
  ghost function EntriesText(v: Value, keys: seq<string>, n: nat): string
    requires v.Map? && n <= |keys|
    requires forall k :: k in keys ==> k in v.entries
    decreases v, 0, n
  {
    if n == 0 then ""
    else EntriesText(v, keys, n - 1) + EntryText(keys[n - 1], v.entries[keys[n - 1]])
  }

  /** One map entry: an array repeats the tag once per element, anything else is one tag. */
  ghost function EntryText(key: string, value: Value): string
    decreases value, 3
  {
    if value.Array? then ElemsText(key, value, |value.elems|) else TagText(key, value)
  }

  /** The tags for the first `n` elements of an array. */
  ghost function ElemsText(key: string, arr: Value, n: nat): string
    requires arr.Array? && n <= |arr.elems|
    decreases arr, 1, n
  {
    if n == 0 then "" else ElemsText(key, arr, n - 1) + TagText(key, arr.elems[n - 1])
  }

  /** The whole entry file for an event whose serialisation succeeds. */
  ghost function EventDocument(event: map<string, Value>): string {
    XmlHeader + "<event>\n" + MapText(Map(event)) + "</event>\n"
  }

  /** The entry file name, `fmt.Sprintf("%c-%d", eventType, itemId)`. */
  function EventFileName(eventType: char, itemId: int): string {
    [eventType] + "-" + FormatInt(itemId)
  }

  /** The text of a map value, by whether its keys are valid. */
  lemma TagTextOfMap(tag: string, v: Value)
    requires v.Map?
    ensures Fails(v) ==> MapText(v) == "" && TagText(tag, v) == "<" + tag + ">" + "\n" + MapText(v)
    ensures !Fails(v) ==> TagText(tag, v) == "<" + tag + ">" + "\n" + MapText(v) + ("</" + tag + ">\n")
  {
  }

  /** A map entry's value is below the map, for termination. */
  lemma EntrySmaller(m: map<string, Value>, k: string)
    requires k in m
    ensures m[k] < Map(m)
  {
  }

  /** Appending the next entry to a prefix of the entries. */
  lemma EntriesStep(start: string, v: Value, keys: seq<string>, i: nat, before: string)
    requires v.Map? && i < |keys|
    requires forall k :: k in keys ==> k in v.entries
    requires before == start + EntriesText(v, keys, i)
    ensures before + EntryText(keys[i], v.entries[keys[i]]) == start + EntriesText(v, keys, i + 1)
  {
  }

  /** An array element is below the array, for termination. */
  lemma ElemSmaller(arr: Value, j: nat)
    requires arr.Array? && j < |arr.elems|
    ensures arr.elems[j] < arr
  {
  }

  /** Appending the next element to a prefix of an array's tags. */
  lemma ElemsStep(start: string, key: string, arr: Value, j: nat, before: string)
    requires arr.Array? && j < |arr.elems|
    requires before == start + ElemsText(key, arr, j)
    ensures before + TagText(key, arr.elems[j]) == start + ElemsText(key, arr, j + 1)
  {
  }

  /** The output buffer `buf` the serialiser's closures share. */
  class EventWriter {
    var buf: string

    constructor ()
      ensures buf == XmlHeader
    {
      buf := XmlHeader;
    }

    /** `addEscapeXmlValue`. */
    method AddEscapedValue(s: string)
      modifies this
      ensures buf == old(buf) + Escape(s)
    {
      for i := 0 to |s|
        invariant buf == old(buf) + Escape(s[..i])
      {
        assert s[..i + 1] == s[..i] + [s[i]];
        EscapeAppend(s[..i], [s[i]]);
        var c := s[i];
        if c == '<' {
          buf := buf + "&lt;";
        } else if c == '>' {
          buf := buf + "&gt;";
        } else if c == '&' {
          buf := buf + "&amp;";
        } else {
          buf := buf + [c];
        }
      }
      assert s[..|s|] == s;
    }

    /** `serializeTagValue`. */
    method SerializeTagValue(tag: string, value: Value) returns (r: Option<Report>)
      modifies this
      ensures buf == old(buf) + TagText(tag, value)
      ensures r.Some? <==> Fails(value)
      decreases value, 2
    {
      ghost var start := buf;
      buf := buf + "<";
      Append(start, "<", tag);
      buf := buf + tag;
      if value.Nil? {
        Append(start, "<" + tag, "/>\n");
        buf := buf + "/>\n";
        return None;
      }
      Append(start, "<" + tag, ">");
      buf := buf + ">";
      ghost var text := "<" + tag + ">";
      var close := "</" + tag + ">\n";
      match value {
        case Int(i) =>
          Append(start, text, FormatInt(i));
          buf := buf + FormatInt(i);
          text := text + FormatInt(i);
          assert text + close == TagText(tag, value);
        case Str(s) =>
          AddEscapedValue(s);
          Append(start, text, Escape(s));
          text := text + Escape(s);
          assert text + close == TagText(tag, value);
        case Map(m) =>
          Append(start, text, "\n");
          buf := buf + "\n";
          text := text + "\n";
          r := SerializeMap(m);
          TagTextOfMap(tag, value);
          Append(start, text, MapText(value));
          text := text + MapText(value);
          if r.Some? {
            return r;
          }
          assert text + close == TagText(tag, value);
        case Array(_) =>
          return Some(ReportMsg("unsupported []interface {} type in received LJEvent"));
        case Unsupported(typeName) =>
          return Some(ReportMsg("unsupported " + typeName + " type in received LJEvent"));
      }
      Append(start, text, close);
      buf := buf + close;
      r := None;
    }

    /** The tags of an array that is a map entry, one per element (main.go:732-735). */
    method SerializeArray(key: string, arr: Value)
      requires arr.Array?
      modifies this
      ensures buf == old(buf) + ElemsText(key, arr, |arr.elems|)
      decreases arr, 1
    {
      for j := 0 to |arr.elems|
        invariant buf == old(buf) + ElemsText(key, arr, j)
      {
        ghost var before := buf;
        ElemSmaller(arr, j);
        var ignored := SerializeTagValue(key, arr.elems[j]);
        ElemsStep(old(buf), key, arr, j, before);
      }
    }

    /**
     * `serializeMap`: every key is checked before anything is written, and
     * the report names an invalid key (which one, when there are several,
     * depends on Go's map iteration order).
     */
    method SerializeMap(m: map<string, Value>) returns (r: Option<Report>)
      modifies this
      ensures buf == old(buf) + MapText(Map(m))
      ensures r.Some? <==> !AllKeysValid(m)
      ensures r.Some? ==> exists k :: k in m && !IsValidXmlTagName(k)
                            && r.value == ReportMsg("cannot serialize map key '" + k + "' as XML name")
      decreases Map(m), 1
    {
      var bad := FindInvalidKey(m);
      if bad.Some? {
        return Some(ReportMsg("cannot serialize map key '" + bad.value + "' as XML name"));
      }
      SerializeEntries(m);
      r := None;
    }

    /** The entries of a map whose keys are all valid tag names, in ascending key order (main.go:725-740). */
    method SerializeEntries(m: map<string, Value>)
      requires AllKeysValid(m)
      modifies this
      ensures buf == old(buf) + MapText(Map(m))
      decreases Map(m), 0
    {
      StrLessIsStrictTotalOrder();
      var keys := SortSet(m.Keys, StrLess);
      assert keys == SortedKeys(m);
      ghost var v := Map(m);
      for i := 0 to |keys|
        invariant forall k :: k in keys ==> k in v.entries
        invariant buf == old(buf) + EntriesText(v, keys, i)
      {
        ghost var before := buf;
        EntrySmaller(m, keys[i]);
        SerializeEntry(keys[i], m[keys[i]]);
        EntriesStep(old(buf), v, keys, i, before);
      }
    }

    /** One map entry: an array repeats the tag, anything else is one tag, and errors are dropped. */
    method SerializeEntry(key: string, value: Value)
      modifies this
      ensures buf == old(buf) + EntryText(key, value)
      decreases value, 3
    {
      if value.Array? {
        SerializeArray(key, value);
      } else {
        var ignored := SerializeTagValue(key, value);
      }
    }
  }

  /** The key check of `serializeMap` (main.go:718-724): some invalid key, if there is one. */
  method FindInvalidKey(m: map<string, Value>) returns (bad: Option<string>)
    ensures bad.None? <==> AllKeysValid(m)
    ensures bad.Some? ==> bad.value in m && !IsValidXmlTagName(bad.value)
  {
    var rest := m.Keys;
    while rest != {}
      invariant rest <= m.Keys
      invariant forall k :: k in m && k !in rest ==> IsValidXmlTagName(k)
      decreases rest
    {
      var key :| key in rest;
      if !IsValidXmlTagName(key) {
        return Some(key);
      }
      rest := rest - {key};
    }
    return None;
  }

  /**
   * `writeLJEventDump`: the entry file `<type>-<id>` in the journal
   * directory gets the serialised event, unless a top-level key is not a
   * valid tag name (then nothing is written) or the write fails.
   */
  method WriteLJEventDump(disk: Disk, dir: string, eventType: char, itemId: int, event: map<string, Value>)
    returns (r: Option<Report>)
    modifies disk
    ensures disk.failing == old(disk.failing) && disk.unreadable == old(disk.unreadable)
    ensures Fails(Map(event)) ==>
      && disk.files == old(disk.files)
      && r.Some?
      && exists k :: k in event && !IsValidXmlTagName(k)
           && r.value == ReportMsg("cannot serialize map key '" + k + "' as XML name")
    ensures !Fails(Map(event)) ==>
      var path := JoinPath(dir, EventFileName(eventType, itemId));
      if path in disk.failing then r == Some(WrapErr(disk.failing[path], "")) && disk.files == old(disk.files)
      else r.None? && disk.files == old(disk.files)[path := EventXml(EventDocument(event))]
  {
    var w := new EventWriter();
    w.buf := w.buf + "<event>\n";
    r := w.SerializeMap(event);
    if r.Some? {
      return r;
    }
    w.buf := w.buf + "</event>\n";
    var eventPath := JoinPath(dir, EventFileName(eventType, itemId));
    var err := disk.WriteFileTempRename(eventPath, EventXml(w.buf));
    if err.Some? {
      return Some(WrapErr(err.value, ""));
    }
  }

  /** Whatever order the keys are enumerated in, once sorted they give the same text. */
  lemma MapTextIndependentOfEnumeration(m: map<string, Value>, keys: seq<string>)
    requires AllKeysValid(m)
    requires StrictlySorted(keys, StrLess)
    requires forall k :: k in keys <==> k in m
    ensures MapText(Map(m)) == EntriesText(Map(m), keys, |keys|)
  {
    StrLessIsStrictTotalOrder();
    SortedUnique(keys, SortedKeys(m), StrLess);
  }

  /** A map value with one invalid key inside a valid entry leaves an unclosed tag, without an error. */
  lemma NestedInvalidKeyLeavesOpenTag()
    ensures !Fails(Map(map["a" := Map(map["1" := Nil])]))
    ensures MapText(Map(map["a" := Map(map["1" := Nil])])) == "<a>\n"
  {
    var m := map["a" := Map(map["1" := Nil])];
    var keys := SortedKeys(m);
    assert "a" in keys && |keys| == 1;
    assert keys == ["a"];
    assert !IsNameStartChar("1"[0]);
    assert "1" in map["1" := Nil] && !IsValidXmlTagName("1");
    assert Fails(Map(map["1" := Nil]));
    assert EntriesText(Map(m), keys, 1) == EntriesText(Map(m), keys, 0) + EntryText("a", m["a"]);
  }

  /**
   * Reads a leaf element `<tag>text</tag>` back: the text between the tags
   * must hold no `<`, and its entities are unescaped.
   */
  function ReadLeaf(tag: string, element: string): Option<string> {
    var open, close := "<" + tag + ">", "</" + tag + ">\n";
    if |element| >= |open| + |close| && element[..|open|] == open && element[|element| - |close|..] == close then
      var text := element[|open|..|element| - |close|];
      if '<' in text then None else Some(Unescape(text))
    else None
  }

  /** A string value reads back from its element. */
  lemma StringElementReadsBack(tag: string, s: string)
    ensures ReadLeaf(tag, TagText(tag, Str(s))) == Some(s)
  {
    var open, close := "<" + tag + ">", "</" + tag + ">\n";
    var e := TagText(tag, Str(s));
    assert e == open + Escape(s) + close;
    assert e[..|open|] == open;
    assert e[|e| - |close|..] == close;
    assert e[|open|..|e| - |close|] == Escape(s);
    EscapeHasNoMarkup(s);
    EscapeRoundTrip(s);
  }

  /** An integer value reads back from its element through `strconv.ParseInt`. */
  lemma IntElementReadsBack(tag: string, i: int)
    requires IsInt64(i)
    ensures ReadLeaf(tag, TagText(tag, Int(i))).Some?
    ensures ParseInt(ReadLeaf(tag, TagText(tag, Int(i))).value) == Some(i)
  {
    var open, close := "<" + tag + ">", "</" + tag + ">\n";
    var d := FormatInt(i);
    assert forall c :: c in d ==> c == '-' || IsDigit(c) by {
      forall c | c in d ensures c == '-' || IsDigit(c) {
        var j :| 0 <= j < |d| && d[j] == c;
        if i < 0 && j > 0 {
          assert d[1..][j - 1] == c;
        }
      }
    }
    EscapePlain(d);
    assert TagText(tag, Int(i)) == TagText(tag, Str(d));
    StringElementReadsBack(tag, d);
    ParseFormatInt(i);
  }
}
