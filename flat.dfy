/**
 * The LiveJournal "flat" protocol as the archiver reads it: the response
 * body is a sequence of lines, alternately a name and its value
 * (`callLJFlatInterface`, main.go:839-885), and arrays are sent as
 * `<name>_count` plus `<name>_1` .. `<name>_<count>` (`getLJFlatArray`,
 * main.go:901-924).
 */
module FlatProtocol {
  import opened Wrappers
  import opened Reports
  import opened Decimal

  /** Go's `m[k]` on a `map[string]string`: the empty string for a missing key. */
  function Lookup(m: map<string, string>, k: string): (v: string)
    ensures k in m ==> v == m[k]
    ensures k !in m ==> v == ""
  {
    if k in m then m[k] else ""
  }

  /**
   * The pairing of response lines, continued from a state of the scanning
   * loop: the map so far, the name waiting for its value ("" when a name
   * is expected next) and the first name seen. An empty line where a name
   * is expected ends the response; a name left without a value is dropped.
   */
  function PairLines(lines: seq<string>, m: map<string, string>, name: string, firstLine: string)
    : (map<string, string>, string)
    decreases |lines|
  {
    if lines == [] then (m, firstLine)
    else if name == "" then
      if lines[0] == "" then (m, firstLine)
      else PairLines(lines[1..], m, lines[0], if firstLine == "" then lines[0] else firstLine)
    else PairLines(lines[1..], m[name := lines[0]], "", firstLine)
  }

  /** The scanning loop of `callLJFlatInterface`: the name/value map and the first line. */
  method ScanResponse(lines: seq<string>) returns (m: map<string, string>, firstLine: string)
    ensures (m, firstLine) == PairLines(lines, map[], "", "")
  {
    m, firstLine := map[], "";
    var name := "";
    var i := 0;
    while i < |lines|
      invariant 0 <= i <= |lines|
      invariant PairLines(lines, map[], "", "") == PairLines(lines[i..], m, name, firstLine)
    {
      assert lines[i..][1..] == lines[i + 1..];
      if name == "" {
        name := lines[i];
        if name == "" {
          break;
        }
        if firstLine == "" {
          firstLine := name;
        }
      } else {
        m := m[name := lines[i]];
        name := "";
      }
      i := i + 1;
    }
  }

  /** A response body as a server writes it: each name on its line, its value on the next. */
  function EncodePairs(pairs: seq<(string, string)>): (lines: seq<string>)
    ensures |lines| == 2 * |pairs|
  {
    if pairs == [] then [] else [pairs[0].0, pairs[0].1] + EncodePairs(pairs[1..])
  }

  /** The map a sequence of pairs denotes when later pairs override earlier ones. */
  function AddPairs(m: map<string, string>, pairs: seq<(string, string)>): map<string, string>
    decreases |pairs|
  {
    if pairs == [] then m else AddPairs(m[pairs[0].0 := pairs[0].1], pairs[1..])
  }

  predicate NamesNonEmpty(pairs: seq<(string, string)>) {
    forall i :: 0 <= i < |pairs| ==> pairs[i].0 != ""
  }

  /**
   * Reading a well-formed body back: every pair lands in the map (the last
   * value wins for a repeated name), and the first line is the first name.
   */
  lemma {:induction false} PairLinesOfEncoding(pairs: seq<(string, string)>, m: map<string, string>, firstLine: string)
    requires NamesNonEmpty(pairs)
    ensures PairLines(EncodePairs(pairs), m, "", firstLine)
         == (AddPairs(m, pairs), if firstLine == "" && pairs != [] then pairs[0].0 else firstLine)
  {
    if pairs != [] {
      var lines := EncodePairs(pairs);
      var f := if firstLine == "" then pairs[0].0 else firstLine;
      assert lines[1..][1..] == EncodePairs(pairs[1..]);
      PairLinesOfEncoding(pairs[1..], m[pairs[0].0 := pairs[0].1], f);
    }
  }

  /** An empty line where a name is expected ends the response: nothing after it is read. */
  lemma {:induction false} EmptyLineEndsResponse(pairs: seq<(string, string)>, rest: seq<string>,
                                                  m: map<string, string>, firstLine: string)
    requires NamesNonEmpty(pairs)
    ensures PairLines(EncodePairs(pairs) + [""] + rest, m, "", firstLine)
         == PairLines(EncodePairs(pairs), m, "", firstLine)
  {
    var lines := EncodePairs(pairs) + [""] + rest;
    if pairs == [] {
      assert lines[0] == "";
    } else {
      var f := if firstLine == "" then pairs[0].0 else firstLine;
      assert lines[0] == pairs[0].0 && lines[1] == pairs[0].1;
      assert lines[1..][1..] == EncodePairs(pairs[1..]) + [""] + rest;
      assert EncodePairs(pairs)[1..][1..] == EncodePairs(pairs[1..]);
      EmptyLineEndsResponse(pairs[1..], rest, m[pairs[0].0 := pairs[0].1], f);
    }
  }

  /**
   * The status check of `callLJFlatInterface`: the response is accepted
   * only when `success` is `OK`; otherwise the report quotes the server's
   * `errmsg`, or the first line when there is none.
   */
  function CheckStatus(mode: string, m: map<string, string>, firstLine: string)
    : (r: Result<map<string, string>, Report>)
    ensures r.Ok? <==> "success" in m && m["success"] == "OK"
    ensures r.Ok? ==> r.value == m
    ensures r.Err? && Lookup(m, "errmsg") != "" ==>
      r.error == ReportMsg("Server reported error with flat protocol mode=" + mode
                           + " status=" + Lookup(m, "success") + "\n\t" + m["errmsg"])
    ensures r.Err? && Lookup(m, "errmsg") == "" ==>
      r.error == ReportMsg("Server Error with flat protocol, try again later. mode=" + mode
                           + " status=" + Lookup(m, "success") + "\n\t" + firstLine)
  {
    var status := Lookup(m, "success");
    if status != "OK" then
      var errmsg := Lookup(m, "errmsg");
      if errmsg == "" then
        Err(ReportMsg("Server Error with flat protocol, try again later. mode=" + mode
                      + " status=" + status + "\n\t" + firstLine))
      else
        Err(ReportMsg("Server reported error with flat protocol mode=" + mode
                      + " status=" + status + "\n\t" + errmsg))
    else Ok(m)
  }

  /**
   * `callLJFlatInterface` once the HTTP exchange is abstracted: `post` is
   * the transport's outcome (the body's lines, or the transport error) and
   * `bodyErr` the fused scanner and close error.
   */
  method CallFlatInterface(mode: string, post: Result<seq<string>, string>, bodyErr: Error)
    returns (r: Result<map<string, string>, Report>)
    ensures post.Err? ==> r == Err(WrapErr(post.error, ""))
    ensures post.Ok? && bodyErr.Some? ==> r == Err(WrapErr(bodyErr.value, ""))
    ensures post.Ok? && bodyErr.None? ==>
      var (m, firstLine) := PairLines(post.value, map[], "", "");
      r == CheckStatus(mode, m, firstLine)
  {
    if post.Err? {
      return Err(WrapErr(post.error, ""));
    }
    var m, firstLine := ScanResponse(post.value);
    if bodyErr.Some? {
      return Err(WrapErr(bodyErr.value, ""));
    }
    r := CheckStatus(mode, m, firstLine);
  }

  function CountKey(arrayName: string): string {
    arrayName + "_count"
  }

  /** The key of the i-th element (counted from 1), `fmt.Sprintf("%s_%d", arrayName, i)`. */
  function ElemKey(arrayName: string, i: int): string {
    arrayName + "_" + FormatInt(i)
  }

  /** `m` holds the array `a` under `arrayName`. */
  predicate HoldsArray(arrayName: string, m: map<string, string>, a: seq<string>) {
    && ParseInt(Lookup(m, CountKey(arrayName))) == Some(|a|)
    && forall i :: 0 <= i < |a| ==> ElemKey(arrayName, i + 1) in m && m[ElemKey(arrayName, i + 1)] == a[i]
  }

  /** Every element key 1..count is present. */
  predicate ElementsPresent(arrayName: string, m: map<string, string>, count: int) {
    forall k :: 1 <= k <= count ==> ElemKey(arrayName, k) in m
  }

  /**
   * Elements `i+1..count` of the array, or the report naming the first
   * absent element key.
   */
  function ElementsFrom(arrayName: string, m: map<string, string>, i: int, count: int)
    : (r: Result<seq<string>, Report>)
    requires 0 <= i <= count
    ensures r.Ok? <==> forall k :: i < k <= count ==> ElemKey(arrayName, k) in m
    ensures r.Ok? ==> |r.value| == count - i
    ensures r.Ok? ==> forall j :: 0 <= j < count - i ==> r.value[j] == m[ElemKey(arrayName, i + j + 1)]
    decreases count - i
  {
    if i == count then Ok([])
    else
      var key := ElemKey(arrayName, i + 1);
      if key !in m then Err(ReportMsg("no " + key + " key in LJ flat response"))
      else
        match ElementsFrom(arrayName, m, i + 1, count)
        case Ok(rest) => Ok([m[key]] + rest)
        case Err(e) => Err(e)
  }

  /** The outcome of reading the array `arrayName` out of a flat response. */
  function FlatArrayResult(arrayName: string, m: map<string, string>): (r: Result<seq<string>, Report>)
    ensures r.Ok? ==> HoldsArray(arrayName, m, r.value)
  {
    var countStr := Lookup(m, CountKey(arrayName));
    if countStr == "" then Err(ReportMsg("no " + CountKey(arrayName) + " key in LJ flat response"))
    else
      match ParseInt(countStr)
      case None =>
        Err(WrapErr(NumError("Atoi", countStr), "value '" + countStr + "' for "
                    + CountKey(arrayName) + " key in LJ flat response is not an integer"))
      case Some(count) =>
        if count < 0 then
          Err(ReportMsg("value '" + countStr + "' for " + CountKey(arrayName) + " key in LJ flat response is negative"))
        else ElementsFrom(arrayName, m, 0, count)
  }

  /**
   * `getLJFlatArray`: the array `arrayName` read out of a flat response. It
   * fails when the count is missing or empty, is not an integer, is
   * negative, or when some element key is absent (the report names the
   * first one); an element that is present may be empty.
   */
  method GetFlatArray(arrayName: string, m: map<string, string>) returns (r: Result<seq<string>, Report>)
    ensures r == FlatArrayResult(arrayName, m)
    ensures var countStr := Lookup(m, CountKey(arrayName));
      countStr == "" ==> r == Err(ReportMsg("no " + CountKey(arrayName) + " key in LJ flat response"))
    ensures var countStr := Lookup(m, CountKey(arrayName));
      countStr != "" && ParseInt(countStr).None? ==>
        r == Err(WrapErr(NumError("Atoi", countStr), "value '" + countStr + "' for "
                         + CountKey(arrayName) + " key in LJ flat response is not an integer"))
    ensures var countStr := Lookup(m, CountKey(arrayName));
      ParseInt(countStr).Some? && ParseInt(countStr).value < 0 ==>
        r == Err(ReportMsg("value '" + countStr + "' for " + CountKey(arrayName)
                           + " key in LJ flat response is negative"))
    ensures var parsed := ParseInt(Lookup(m, CountKey(arrayName)));
      r.Ok? <==> parsed.Some? && parsed.value >= 0 && ElementsPresent(arrayName, m, parsed.value)
    ensures r.Ok? ==> HoldsArray(arrayName, m, r.value)
    ensures r.Err? && ParseInt(Lookup(m, CountKey(arrayName))).Some?
                   && ParseInt(Lookup(m, CountKey(arrayName))).value >= 0 ==>
      exists k :: 1 <= k <= ParseInt(Lookup(m, CountKey(arrayName))).value
        && ElemKey(arrayName, k) !in m
        && ElementsPresent(arrayName, m, k - 1)
        && r.error == ReportMsg("no " + ElemKey(arrayName, k) + " key in LJ flat response")
  {
    var key := CountKey(arrayName);
    var countStr := Lookup(m, key);
    if countStr == "" {
      return Err(ReportMsg("no " + key + " key in LJ flat response"));
    }
    var parsed := ParseInt(countStr);
    if parsed.None? {
      return Err(WrapErr(NumError("Atoi", countStr), "value '" + countStr + "' for " + key
                         + " key in LJ flat response is not an integer"));
    }
    var count := parsed.value;
    if count < 0 {
      return Err(ReportMsg("value '" + countStr + "' for " + key + " key in LJ flat response is negative"));
    }
    var a: seq<string> := [];
    var i := 0;
    assert FlatArrayResult(arrayName, m) == ElementsFrom(arrayName, m, 0, count);
    match ElementsFrom(arrayName, m, 0, count) {
      case Ok(rest) => assert a + rest == rest;
      case Err(_) =>
    }
    while i < count
      invariant 0 <= i <= count && |a| == i
      invariant ElementsPresent(arrayName, m, i)
      invariant forall j :: 0 <= j < i ==> a[j] == m[ElemKey(arrayName, j + 1)]
      invariant FlatArrayResult(arrayName, m) == Prepend(a, ElementsFrom(arrayName, m, i, count))
    {
      var elemKey := ElemKey(arrayName, i + 1);
      if elemKey !in m {
        return Err(ReportMsg("no " + elemKey + " key in LJ flat response"));
      }
      match ElementsFrom(arrayName, m, i + 1, count) {
        case Ok(rest) => assert a + ([m[elemKey]] + rest) == (a + [m[elemKey]]) + rest;
        case Err(_) =>
      }
      a := a + [m[elemKey]];
      i := i + 1;
    }
    assert a + [] == a;
    return Ok(a);
  }

  /** `a` in front of the elements of a successful read; a failed read stays as it is. */
  function Prepend(a: seq<string>, r: Result<seq<string>, Report>): Result<seq<string>, Report> {
    match r
    case Ok(rest) => Ok(a + rest)
    case Err(e) => Err(e)
  }

  /** The flat-protocol spelling of an array, as a server would send it. */
  function ArrayEntries(arrayName: string, a: seq<string>): (m: map<string, string>)
    ensures forall k :: 1 <= k <= |a| ==> ElemKey(arrayName, k) in m
  {
    if a == [] then map[]
    else ArrayEntries(arrayName, a[..|a| - 1])[ElemKey(arrayName, |a|) := a[|a| - 1]]
  }

  function EncodeArray(arrayName: string, a: seq<string>): map<string, string> {
    ArrayEntries(arrayName, a)[CountKey(arrayName) := FormatInt(|a|)]
  }

  /** Different indices give different element keys. */
  lemma ElemKeyInjective(arrayName: string, i: int, j: int)
    requires IsInt64(i) && IsInt64(j)
    requires ElemKey(arrayName, i) == ElemKey(arrayName, j)
    ensures i == j
  {
    assert ElemKey(arrayName, i)[|arrayName| + 1..] == FormatInt(i);
    assert ElemKey(arrayName, j)[|arrayName| + 1..] == FormatInt(j);
    FormatIntInjective(i, j);
  }

  lemma {:induction false} ArrayEntriesAt(arrayName: string, a: seq<string>, i: nat)
    requires i < |a| && |a| <= MaxInt64
    ensures ArrayEntries(arrayName, a)[ElemKey(arrayName, i + 1)] == a[i]
  {
    if i < |a| - 1 {
      assert ElemKey(arrayName, i + 1) != ElemKey(arrayName, |a|) by {
        if ElemKey(arrayName, i + 1) == ElemKey(arrayName, |a|) {
          ElemKeyInjective(arrayName, i + 1, |a|);
        }
      }
      ArrayEntriesAt(arrayName, a[..|a| - 1], i);
    }
  }

  /** Element keys end in digits, so the count key is never one of them. */
  lemma CountKeyIsNoElemKey(arrayName: string, i: nat)
    ensures CountKey(arrayName) != ElemKey(arrayName, i)
  {
    var c, e, digits := CountKey(arrayName), ElemKey(arrayName, i), FormatInt(i);
    assert c[|c| - 1] == 't';
    assert e[|e| - 1] == digits[|digits| - 1];
    assert IsDigit(digits[|digits| - 1]);
  }

  /** `getLJFlatArray` reads back exactly the array a server encoded. */
  lemma EncodeArrayHoldsArray(arrayName: string, a: seq<string>)
    requires |a| <= MaxInt64
    ensures HoldsArray(arrayName, EncodeArray(arrayName, a), a)
    ensures ElementsPresent(arrayName, EncodeArray(arrayName, a), |a|)
  {
    var m := EncodeArray(arrayName, a);
    ParseFormatInt(|a|);
    forall i | 0 <= i < |a|
      ensures ElemKey(arrayName, i + 1) in m && m[ElemKey(arrayName, i + 1)] == a[i]
    {
      CountKeyIsNoElemKey(arrayName, i + 1);
      ArrayEntriesAt(arrayName, a, i);
    }
  }
}
