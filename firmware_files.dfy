/** What the two firmware routers (routers/firmware-router.js and
    routers/firmware.js) share: Node's POSIX `path.extname`, the `.bin` upload
    filter, the upload answer, the version-URL list and the firmware-URL
    pattern that `/publish` checks. */
module FirmwareFiles {
  import opened Strings
  import opened JsValues
  import opened Http

  /** The index of the last occurrence of `c`, if any. */
  function LastIndex(s: string, c: char): (k: Option<nat>)
    ensures k.Some? ==> k.value < |s| && s[k.value] == c
    ensures k.Some? ==> forall j :: k.value < j < |s| ==> s[j] != c
    ensures k.None? ==> c !in s
    decreases |s|
  {
    if |s| == 0 then None
    else if s[|s| - 1] == c then Some(|s| - 1)
    else
      var k := LastIndex(s[..|s| - 1], c);
      assert forall j :: 0 <= j < |s| - 1 ==> s[..|s| - 1][j] == s[j];
      k
  }

  /** `s` without its trailing slashes. */
  function TrimSlashes(s: string): (r: string)
    ensures |r| <= |s| && r == s[..|r|]
    ensures |r| > 0 ==> r[|r| - 1] != '/'
    ensures forall j :: |r| <= j < |s| ==> s[j] == '/'
    decreases |s|
  {
    if |s| > 0 && s[|s| - 1] == '/' then TrimSlashes(s[..|s| - 1]) else s
  }

  /** `path.basename(p)`: the last component, trailing slashes ignored. */
  function Basename(p: string): (b: string)
    ensures '/' !in b
  {
    var t := TrimSlashes(p);
    match LastIndex(t, '/')
    case None => t
    case Some(k) => t[k + 1..]
  }

  /** `path.extname(p)`: the part of the last component from its last dot
      on; empty when that component has no dot, when its only dot is its
      first character (".profile") and for "..". */
  function ExtName(p: string): (e: string)
    ensures e == "" || (e[0] == '.' && '.' !in e[1..] && '/' !in e)
  {
    var b := Basename(p);
    match LastIndex(b, '.')
    case None => ""
    case Some(k) =>
      if k == 0 || b == ".." then ""
      else
        assert forall j :: 0 <= j < |b[k..]| - 1 ==> b[k..][1..][j] == b[k + 1 + j];
        b[k..]
  }

  /** The multer `fileFilter` test: `path.extname(name).toLowerCase() === ".bin"`. */
  predicate IsBinName(name: string) {
    ToLowerAscii(ExtName(name)) == ".bin"
  }

  predicate IsBinSuffix(s: string) {
    |s| == 4 && s[0] == '.' && LowerChar(s[1]) == 'b' && LowerChar(s[2]) == 'i' && LowerChar(s[3]) == 'n'
  }

  /** For a name without slashes, the filter accepts exactly the names that
      end in ".bin" in any letter case and have something before it. */
  lemma BinNameIff(name: string)
    requires '/' !in name
    ensures IsBinName(name) <==> |name| > 4 && IsBinSuffix(name[|name| - 4..])
  {
    var t := TrimSlashes(name);
    if |name| > 0 { assert name[|name| - 1] in name; }
    assert t == name;
    assert Basename(name) == name;
    var e := ExtName(name);
    if IsBinName(name) {
      var k := LastIndex(name, '.').value;
      assert e == name[k..];
      assert |e| == 4;
      assert ToLowerAscii(e)[1] == LowerChar(e[1]);
      assert k > 0;
    }
    if |name| > 4 && IsBinSuffix(name[|name| - 4..]) {
      var n := |name|;
      assert name[n - 4] == '.';
      assert name[n - 3] != '.' && name[n - 2] != '.' && name[n - 1] != '.';
      var k := LastIndex(name, '.');
      assert k == Some(n - 4);
      assert e == name[n - 4..];
      assert ToLowerAscii(e) == ".bin";
    }
  }

  /** A leading dot alone does not make an extension: ".bin" is refused
      and "..bin" is accepted. */
  lemma LeadingDotNames()
    ensures !IsBinName(".bin")
    ensures IsBinName("..bin")
  {
    BinNameIff(".bin");
    BinNameIff("..bin");
  }

  /** The filter ignores letter case and looks at the last extension only. */
  lemma CaseAndLastExtension()
    ensures IsBinName("FW.BIN")
    ensures !IsBinName("fw.bin.txt")
  {
    BinNameIff("FW.BIN");
    BinNameIff("fw.bin.txt");
  }

  const FilterError := "Only .bin files are allowed"

  /** What an upload request ends in: an answer from the route, or the
      filter's error handed to Express's error handling. */
  datatype UploadOutcome = Answer(response: Response) | Rejected(error: string)

  /** `POST /upload`: the filter runs first, then the handler answers 400 when
      no file came with the request. */
  function UploadRoute(file: Option<string>): (r: UploadOutcome)
    ensures r == Rejected(FilterError) <==> file.Some? && !IsBinName(file.value)
    ensures r == Answer(Response(400, OutcomeBody(false, "Please upload a file"))) <==> file.None?
    ensures r.Answer? && r.response.status == 200 <==> file.Some? && IsBinName(file.value)
  {
    match file
    case None => Answer(Response(400, OutcomeBody(false, "Please upload a file")))
    case Some(name) =>
      if !IsBinName(name) then Rejected(FilterError)
      else Answer(Response(200, OutcomeBody(true, "File uploaded successfully!")))
  }

  /** `Published URL "${message}" successfully`. */
  function PublishedMessage(message: JsValue): string {
    "Published URL \"" + ToStr(message) + "\" successfully"
  }

  const UpdatesPath := "/api/updates/"

  /** `http://${host}:5000/api/updates/${item}`. */
  function VersionUrl(host: string, name: string): string {
    "http://" + host + ":5000" + UpdatesPath + name
  }

  /** `data.map(item => VersionUrl(host, item))`. */
  function VersionUrls(host: string, names: seq<string>): (urls: seq<string>)
    ensures |urls| == |names|
    ensures forall i :: 0 <= i < |names| ==> urls[i] == VersionUrl(host, names[i])
  {
    seq(|names|, i requires 0 <= i < |names| => VersionUrl(host, names[i]))
  }

  /** A directory listing, or the error `readdirSync` threw. */
  datatype Listing = Names(names: seq<string>) | ReadFailure(message: string)

  /** `GET /get-all-versions` for the given host: 200 with one URL per
      listed file, in listing order, or 500 with the read error. */
  function VersionsRoute(host: string, dir: Listing): (r: Response)
    ensures dir.Names? ==> r == Response(200, ListBody(VersionUrls(host, dir.names)))
    ensures dir.ReadFailure? ==> r == Response(500, OutcomeBody(false, dir.message))
  {
    match dir
    case Names(names) => Response(200, ListBody(VersionUrls(host, names)))
    case ReadFailure(m) => Response(500, OutcomeBody(false, m))
  }

  /** The characters `[a-zA-Z0-9.-]`. */
  predicate IsHostChar(c: char) {
    ('a' <= c <= 'z') || ('A' <= c <= 'Z') || IsDigit(c) || c == '.' || c == '-'
  }

  /** The four characters `.` does not match without the `s` flag. */
  predicate IsLineTerminator(c: char) {
    c == '\n' || c == '\r' || c == '\U{2028}' || c == '\U{2029}'
  }

  predicate AllOf(s: string, p: char -> bool) {
    forall i :: 0 <= i < |s| ==> p(s[i])
  }

  predicate NoLineTerminator(s: string) {
    forall i :: 0 <= i < |s| ==> !IsLineTerminator(s[i])
  }

  /** `s` is a match of `^http:\/\/[a-zA-Z0-9.-]+:\d+\/api\/updates\/.*\.bin$`
      split into its three variable parts. */
  ghost predicate UrlParts(s: string, host: string, port: string, file: string) {
    && |host| > 0 && AllOf(host, IsHostChar)
    && |port| > 0 && AllDigits(port)
    && NoLineTerminator(file)
    && s == "http://" + (host + (":" + (port + (UpdatesPath + (file + ".bin")))))
  }

  /** The language of the firmware-URL regular expression
      (routers/firmware-router.js:146). */
  ghost predicate MatchesFirmwareUrl(s: string) {
    exists host, port, file :: UrlParts(s, host, port, file)
  }

  /** The length of the longest prefix of `s` made of characters in `p`. */
  function Span(s: string, p: char -> bool): (n: nat)
    ensures n <= |s| && AllOf(s[..n], p)
    ensures n < |s| ==> !p(s[n])
    decreases |s|
  {
    if |s| > 0 && p(s[0]) then
      var n := 1 + Span(s[1..], p);
      assert forall i :: 1 <= i < n ==> s[..n][i] == s[1..][..n - 1][i - 1];
      n
    else 0
  }

  /** A run of `p` characters stopped by a character outside `p` is the span. */
  lemma SpanOfPrefix(a: string, b: string, p: char -> bool)
    requires AllOf(a, p) && |b| > 0 && !p(b[0])
    ensures Span(a + b, p) == |a|
  {
    var s := a + b;
    var n := Span(s, p);
    assert forall i :: 0 <= i < |a| ==> p(s[i]);
    assert forall i :: 0 <= i < n ==> p(s[i]) by {
      assert forall i :: 0 <= i < n ==> s[..n][i] == s[i];
    }
    assert s[|a|] == b[0];
  }

  /** What follows the port: "/api/updates/", then anything without a line
      terminator, then ".bin" at the very end. */
  predicate FilePart(t: string) {
    |t| >= 4 && t[|t| - 4..] == ".bin" && NoLineTerminator(t[..|t| - 4])
  }

  /** What follows the ':': a non-empty run of digits, then the file part. */
  predicate PortPart(q: string) {
    var d := Span(q, IsDigit);
    0 < d && StartsWith(q[d..], UpdatesPath) && FilePart(q[d + |UpdatesPath|..])
  }

  /** What follows "http://": the host is the longest run of host characters
      and must be followed by ':'. */
  predicate HostPart(r: string) {
    var h := Span(r, IsHostChar);
    0 < h < |r| && r[h] == ':' && PortPart(r[h + 1..])
  }

  /** The executable test. The greedy runs are forced: ':' is not a host
      character and '/' is not a digit. The ".bin" suffix is case-sensitive. */
  predicate IsFirmwareUrl(s: string) {
    StartsWith(s, "http://") && HostPart(s[7..])
  }

  lemma FilePartSplit(t: string)
    requires FilePart(t)
    ensures t == t[..|t| - 4] + ".bin"
  {
  }

  lemma FilePartOf(file: string)
    requires NoLineTerminator(file)
    ensures FilePart(file + ".bin")
  {
    var t := file + ".bin";
    assert t[..|t| - 4] == file;
  }

  lemma PortPartSplit(q: string) returns (port: string, t: string)
    requires PortPart(q)
    ensures |port| > 0 && AllDigits(port) && FilePart(t)
    ensures q == port + (UpdatesPath + t)
  {
    var d := Span(q, IsDigit);
    port, t := q[..d], q[d + |UpdatesPath|..];
    assert AllOf(port, IsDigit);
    assert q[d..] == UpdatesPath + t;
  }

  lemma PortPartOf(port: string, t: string)
    requires |port| > 0 && AllDigits(port) && FilePart(t)
    ensures PortPart(port + (UpdatesPath + t))
  {
    var q := port + (UpdatesPath + t);
    assert AllOf(port, IsDigit);
    SpanOfPrefix(port, UpdatesPath + t, IsDigit);
    assert q[|port|..] == UpdatesPath + t;
    assert q[|port| + |UpdatesPath|..] == t;
  }

  /** A string is what comes before position `h`, its character there and
      what follows. */
  lemma SplitAround(s: string, h: nat)
    requires h < |s|
    ensures s == s[..h] + ([s[h]] + s[h + 1..])
  {
    assert s[h..] == [s[h]] + s[h + 1..];
    assert s == s[..h] + s[h..];
  }

  lemma HostPartSplit(r: string) returns (host: string, q: string)
    requires HostPart(r)
    ensures |host| > 0 && AllOf(host, IsHostChar) && PortPart(q)
    ensures r == host + (":" + q)
  {
    var h := Span(r, IsHostChar);
    host, q := r[..h], r[h + 1..];
    SplitAround(r, h);
  }

  lemma HostPartOf(host: string, q: string)
    requires |host| > 0 && AllOf(host, IsHostChar) && PortPart(q)
    ensures HostPart(host + (":" + q))
  {
    var r := host + (":" + q);
    SpanOfPrefix(host, ":" + q, IsHostChar);
    assert r[|host| + 1..] == q;
  }

  lemma UrlPartsIntro(s: string, host: string, port: string, file: string)
    requires UrlParts(s, host, port, file)
    ensures MatchesFirmwareUrl(s)
  {
  }

  lemma FirmwareUrlSound(s: string)
    requires IsFirmwareUrl(s)
    ensures MatchesFirmwareUrl(s)
  {
    var r := s[7..];
    assert s == "http://" + r;
    var host, q := HostPartSplit(r);
    var port, t := PortPartSplit(q);
    FilePartSplit(t);
    UrlPartsIntro(s, host, port, t[..|t| - 4]);
  }

  lemma FirmwareUrlComplete(s: string, host: string, port: string, file: string)
    requires UrlParts(s, host, port, file)
    ensures IsFirmwareUrl(s)
  {
    FilePartOf(file);
    PortPartOf(port, file + ".bin");
    var r := host + (":" + (port + (UpdatesPath + (file + ".bin"))));
    HostPartOf(host, port + (UpdatesPath + (file + ".bin")));
    assert s == "http://" + r;
    assert s[7..] == r;
  }

  /** The executable test accepts exactly the language of the pattern. */
  lemma FirmwareUrlIff(s: string)
    ensures IsFirmwareUrl(s) <==> MatchesFirmwareUrl(s)
  {
    if IsFirmwareUrl(s) {
      FirmwareUrlSound(s);
    }
    if MatchesFirmwareUrl(s) {
      var host, port, file :| UrlParts(s, host, port, file);
      FirmwareUrlComplete(s, host, port, file);
    }
  }

  /** A version URL whose host is made of host characters, for a file whose
      name ends in ".bin" exactly, is accepted by the firmware-URL test. */
  lemma VersionUrlAccepted(host: string, file: string)
    requires |host| > 0 && AllOf(host, IsHostChar) && NoLineTerminator(file)
    ensures IsFirmwareUrl(VersionUrl(host, file + ".bin"))
  {
    var s := VersionUrl(host, file + ".bin");
    assert AllDigits("5000");
    assert s == "http://" + (host + (":" + ("5000" + (UpdatesPath + (file + ".bin")))));
    FirmwareUrlComplete(s, host, "5000", file);
  }

  /** The suffix test is case-sensitive while the upload filter is not: an
      uploaded "FW.BIN" is listed, but its URL is refused. */
  lemma UpperCaseBinRefused(host: string)
    ensures IsBinName("FW.BIN")
    ensures !IsFirmwareUrl(VersionUrl(host, "FW.BIN"))
  {
    BinNameIff("FW.BIN");
    var s := VersionUrl(host, "FW.BIN");
    assert s[|s| - 4..] == ".BIN";
    if IsFirmwareUrl(s) {
      var host', q := HostPartSplit(s[7..]);
      var port, t := PortPartSplit(q);
      assert false;
    }
  }
}
