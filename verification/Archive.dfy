/** The framing of a device archive (src/device/archive.rs): what `encode` prints and what `extract` accepts. */
module Archive {
  import opened Results

  type Byte = x: int | 0 <= x < 256
  type Bytes = seq<Byte>
  type FolderId = Bytes

  const SLASH: Byte := 47
  const MAX_HEADER := 4 * 1024 * 1024
  const MAX_MANIFEST := 128 * 1024
  const MAX_PATH := 256

  function Ascii(s: string): (r: Bytes)
    ensures |r| == |s|
  {
    seq(|s|, i requires 0 <= i < |s| => (s[i] as int) % 256)
  }

  const MAGIC := Ascii("EVERYWHERE-DEVICE-1\n")
  const FOLDERS := Ascii("folders")
  const MANIFEST := Ascii("manifest.json")
  const INDEX := Ascii("index.sqlite")
  const OBJECTS := Ascii("objects")

  // ---- Big-endian numbers ----

  function Limit(k: nat): (r: nat)
    ensures r > 0
  {
    if k == 0 then 1 else 256 * Limit(k - 1)
  }

  /** `to_be_bytes` of a k-byte number; higher digits are cut off as a cast does. */
  function BigEndian(n: nat, k: nat): (r: Bytes)
    ensures |r| == k
  {
    if k == 0 then [] else BigEndian(n / 256, k - 1) + [n % 256]
  }

  function U32(n: nat): (r: Bytes)
    ensures |r| == 4
  {
    BigEndian(n, 4)
  }

  function U64(n: nat): (r: Bytes)
    ensures |r| == 8
  {
    BigEndian(n, 8)
  }

  function Value(b: Bytes): nat {
    if b == [] then 0 else 256 * Value(b[..|b| - 1]) + b[|b| - 1]
  }

  lemma {:induction false} ValueOfBigEndian(n: nat, k: nat)
    requires n < Limit(k)
    ensures Value(BigEndian(n, k)) == n
  {
    if k > 0 {
      ValueOfBigEndian(n / 256, k - 1);
      assert BigEndian(n, k)[..k - 1] == BigEndian(n / 256, k - 1);
    }
  }

  lemma {:induction false} BigEndianOfValue(b: Bytes)
    ensures BigEndian(Value(b), |b|) == b && Value(b) < Limit(|b|)
  {
    if b != [] {
      BigEndianOfValue(b[..|b| - 1]);
      assert b == b[..|b| - 1] + [b[|b| - 1]];
    }
  }

  /** The most significant byte first. */
  lemma BytesOfU32(n: nat)
    requires n < 0x1_0000_0000
    ensures U32(n) == [n / 0x100_0000, n / 0x1_0000 % 256, n / 256 % 256, n % 256]
  {
    var a, b, c := n / 256, n / 0x1_0000, n / 0x100_0000;
    assert a / 256 == b && b / 256 == c && c < 256;
    assert BigEndian(c, 1) == BigEndian(0, 0) + [c];
    assert BigEndian(b, 2) == BigEndian(c, 1) + [b % 256];
    assert BigEndian(a, 3) == BigEndian(b, 2) + [a % 256];
  }

  lemma BytesOfU64(n: nat)
    requires n < 0x1_0000_0000_0000_0000
    ensures U64(n)[..4] == U32(n / 0x1_0000_0000)
    ensures U64(n)[4..] == [n / 0x100_0000 % 256, n / 0x1_0000 % 256, n / 256 % 256, n % 256]
  {
    var a, b, c, d := n / 256, n / 0x1_0000, n / 0x100_0000, n / 0x1_0000_0000;
    assert a / 256 == b && b / 256 == c && c / 256 == d;
    assert BigEndian(c, 5) == BigEndian(d, 4) + [c % 256];
    assert BigEndian(b, 6) == BigEndian(c, 5) + [b % 256];
    assert BigEndian(a, 7) == BigEndian(b, 6) + [a % 256];
  }

  // ---- Paths ----

  function Split(s: Bytes): (r: seq<Bytes>)
    ensures |r| > 0
  {
    if s == [] then [[]]
    else
      var rest := Split(s[1..]);
      if s[0] == SLASH then [[]] + rest else [[s[0]] + rest[0]] + rest[1..]
  }

  function Joined(parts: seq<Bytes>): Bytes
    requires |parts| > 0
  {
    if |parts| == 1 then parts[0] else parts[0] + [SLASH] + Joined(parts[1..])
  }

  lemma {:induction false} JoinedSplit(s: Bytes)
    ensures Joined(Split(s)) == s
    ensures forall part :: part in Split(s) ==> SLASH !in part
  {
    if s != [] {
      JoinedSplit(s[1..]);
      var rest := Split(s[1..]);
      if s[0] == SLASH {
        assert Split(s)[1..] == rest;
      } else {
        assert Split(s)[1..] == rest[1..];
        assert rest[0] in rest;
      }
      assert s == [s[0]] + s[1..];
    }
  }

  lemma {:induction false} SplitPlain(a: Bytes)
    requires SLASH !in a
    ensures Split(a) == [a]
  {
    if a != [] {
      SplitPlain(a[1..]);
      assert a == [a[0]] + a[1..];
    }
  }

  lemma {:induction false} SplitFirst(a: Bytes, b: Bytes)
    requires SLASH !in a
    ensures Split(a + [SLASH] + b) == [a] + Split(b)
  {
    var s := a + [SLASH] + b;
    if a == [] {
      assert s[1..] == b;
    } else {
      SplitFirst(a[1..], b);
      assert s[1..] == a[1..] + [SLASH] + b;
      assert a == [a[0]] + a[1..];
    }
  }

  lemma {:induction false} SplitJoined(parts: seq<Bytes>)
    requires |parts| > 0 && forall part :: part in parts ==> SLASH !in part
    ensures Split(Joined(parts)) == parts
  {
    if |parts| == 1 {
      SplitPlain(parts[0]);
    } else {
      SplitJoined(parts[1..]);
      SplitFirst(parts[0], Joined(parts[1..]));
    }
  }

  predicate IdByte(b: Byte) {
    48 <= b <= 57 || 65 <= b <= 90 || 97 <= b <= 122 || b == 45 || b == 95
  }

  predicate ValidId(id: Bytes) {
    1 <= |id| <= 64 && forall b :: b in id ==> IdByte(b)
  }

  predicate ValidHash(h: Bytes) {
    |h| == 64 && forall b :: b in h ==> 48 <= b <= 57 || 97 <= b <= 102
  }

  datatype Kind = Manifest | Index | Object(hash: Bytes) {
    function Parts(): seq<Bytes> {
      match this
      case Manifest => [MANIFEST]
      case Index => [INDEX]
      case Object(hash) => [OBJECTS, hash]
    }

    predicate Proper() {
      Object? ==> ValidHash(hash)
    }
  }

  /** The paths that `encode` prints. */
  function PathOf(id: FolderId, kind: Kind): Bytes {
    Joined([FOLDERS, id] + kind.Parts())
  }

  /** The test that `extract` makes on the components of a path. */
  predicate Accepted(path: Bytes, folders: seq<FolderId>) {
    var parts := Split(path);
    && |parts| >= 3 && parts[0] == FOLDERS && parts[1] in folders
    && (parts[2..] == [MANIFEST] || parts[2..] == [INDEX]
        || (|parts| == 4 && parts[2] == OBJECTS && ValidHash(parts[3])))
  }

  predicate NamesManifest(path: Bytes) {
    |Split(path)| >= 3 && Split(path)[2] == MANIFEST
  }

  lemma NoSlash(id: Bytes, kind: Kind)
    requires ValidId(id) && kind.Proper()
    ensures forall part :: part in [FOLDERS, id] + kind.Parts() ==> SLASH !in part
  {
    assert SLASH !in FOLDERS && SLASH !in MANIFEST && SLASH !in INDEX && SLASH !in OBJECTS;
  }

  /** The parts of a printed path are the ones it was put together from. */
  lemma PartsOfPath(id: FolderId, kind: Kind)
    requires ValidId(id) && kind.Proper()
    ensures Split(PathOf(id, kind)) == [FOLDERS, id] + kind.Parts()
  {
    NoSlash(id, kind);
    SplitJoined([FOLDERS, id] + kind.Parts());
  }

  lemma PathsAreDistinct(id: FolderId, kind: Kind, id': FolderId, kind': Kind)
    requires ValidId(id) && kind.Proper() && ValidId(id') && kind'.Proper()
    requires PathOf(id, kind) == PathOf(id', kind')
    ensures id == id' && kind == kind'
  {
    PartsOfPath(id, kind);
    PartsOfPath(id', kind');
    var a, b := [FOLDERS, id] + kind.Parts(), [FOLDERS, id'] + kind'.Parts();
    assert a[1] == b[1] && a[2] == b[2];
    assert MANIFEST != INDEX by { assert |MANIFEST| != |INDEX|; }
    assert MANIFEST != OBJECTS by { assert |MANIFEST| != |OBJECTS|; }
    assert INDEX != OBJECTS by { assert |INDEX| != |OBJECTS|; }
    if kind.Object? { assert a[3] == b[3]; }
  }

  /** `extract` accepts exactly the paths that `encode` can print for the header's folders. */
  lemma AcceptedIsPrinted(path: Bytes, folders: seq<FolderId>)
    requires forall id :: id in folders ==> ValidId(id)
    ensures Accepted(path, folders) <==> exists id, kind: Kind :: id in folders && kind.Proper() && path == PathOf(id, kind)
  {
    if Accepted(path, folders) {
      JoinedSplit(path);
      var parts := Split(path);
      var kind := if parts[2..] == [MANIFEST] then Manifest else if parts[2..] == [INDEX] then Index else Object(parts[3]);
      assert parts == [FOLDERS, parts[1]] + kind.Parts();
      assert path == PathOf(parts[1], kind) && kind.Proper();
    }
    if id, kind: Kind :| id in folders && kind.Proper() && path == PathOf(id, kind) {
      PartsOfPath(id, kind);
      var parts := Split(path);
      assert parts[2..] == kind.Parts();
    }
  }

  lemma JoinedTwo(a: Bytes, b: Bytes)
    ensures Joined([a, b]) == a + [47] + b
  {
    assert [a, b][1..] == [b];
  }

  lemma JoinedThree(a: Bytes, b: Bytes, c: Bytes)
    ensures Joined([a, b, c]) == a + [47] + (b + [47] + c)
  {
    assert [a, b, c][1..] == [b, c];
    JoinedTwo(b, c);
  }

  lemma JoinedFour(a: Bytes, b: Bytes, c: Bytes, d: Bytes)
    ensures Joined([a, b, c, d]) == a + [47] + (b + [47] + (c + [47] + d))
  {
    assert [a, b, c, d][1..] == [b, c, d];
    JoinedThree(b, c, d);
  }

  lemma Around(a: Bytes, id: Bytes, c: Bytes)
    ensures a + [47] + (id + [47] + c) == a + [47] + id + ([47] + c)
  {
  }

  lemma AsciiJoins(s: string, t: string)
    ensures Ascii(s + t) == Ascii(s) + Ascii(t)
  {
  }

  lemma PrefixSpelled()
    ensures Ascii("folders/") == FOLDERS + [47] && Ascii("/manifest.json") == [47] + MANIFEST
    ensures Ascii("/index.sqlite") == [47] + INDEX && Ascii("/objects/") == [47] + (OBJECTS + [47])
  {
    assert Ascii("/") == [47];
    assert "folders" + "/" == "folders/" && "/" + "manifest.json" == "/manifest.json";
    assert "/" + "index.sqlite" == "/index.sqlite" && "objects" + "/" == "objects/" && "/" + "objects/" == "/objects/";
    AsciiJoins("folders", "/");
    AsciiJoins("/", "manifest.json");
    AsciiJoins("/", "index.sqlite");
    AsciiJoins("objects", "/");
    AsciiJoins("/", "objects/");
  }

  /** The printed paths, letter by letter. */
  lemma PathsSpelled(id: FolderId, hash: Bytes)
    ensures PathOf(id, Manifest) == Ascii("folders/") + id + Ascii("/manifest.json")
    ensures PathOf(id, Index) == Ascii("folders/") + id + Ascii("/index.sqlite")
    ensures PathOf(id, Object(hash)) == Ascii("folders/") + id + Ascii("/objects/") + hash
  {
    PrefixSpelled();
    assert [FOLDERS, id] + Manifest.Parts() == [FOLDERS, id, MANIFEST];
    assert [FOLDERS, id] + Index.Parts() == [FOLDERS, id, INDEX];
    assert [FOLDERS, id] + Object(hash).Parts() == [FOLDERS, id, OBJECTS, hash];
    JoinedThree(FOLDERS, id, MANIFEST);
    JoinedThree(FOLDERS, id, INDEX);
    JoinedFour(FOLDERS, id, OBJECTS, hash);
    Around(FOLDERS, id, MANIFEST);
    Around(FOLDERS, id, INDEX);
    Around(FOLDERS, id, OBJECTS + [47] + hash);
    Reassociated(FOLDERS + [47] + id, OBJECTS, hash);
  }

  lemma Reassociated(a: Bytes, b: Bytes, c: Bytes)
    ensures a + ([47] + (b + [47] + c)) == a + ([47] + (b + [47])) + c
  {
  }

  lemma AsciiSpells(s: string, i: nat)
    requires i < |s| && forall j :: 0 <= j < |s| ==> (s[j] as int) < 128
    ensures Ascii(s)[i] == s[i] as int
  {
  }

  lemma JoinedLength(parts: seq<Bytes>)
    requires 3 <= |parts| <= 4
    ensures |Joined(parts)| == if |parts| == 3 then |parts[0]| + |parts[1]| + |parts[2]| + 2
      else |parts[0]| + |parts[1]| + |parts[2]| + |parts[3]| + 3
  {
    assert |Joined(parts)| == |parts[0]| + 1 + |Joined(parts[1..])|;
    assert |Joined(parts[1..])| == |parts[1]| + 1 + |Joined(parts[1..][1..])|;
    if |parts| == 4 {
      assert |Joined(parts[1..][1..])| == |parts[2]| + 1 + |parts[3]|;
    }
  }

  /** Every printed path fits the limit, and none has the length that ends the archive. */
  lemma PrintedPathsFit(id: FolderId, kind: Kind)
    requires ValidId(id) && kind.Proper()
    ensures 0 < |PathOf(id, kind)| <= 145 < MAX_PATH
  {
    JoinedLength([FOLDERS, id] + kind.Parts());
  }

  // ---- The stream ----

  datatype Entry = Entry(path: Bytes, content: Bytes)

  function Record(e: Entry): Bytes {
    U32(|e.path|) + e.path + U64(|e.content|) + e.content
  }

  function Records(entries: seq<Entry>): Bytes {
    if entries == [] then [] else Record(entries[0]) + Records(entries[1..])
  }

  /** The device's settings; everything but the folder names stays opaque. */
  datatype Header = Header(folders: seq<FolderId>, settings: string)

  /** JSON for headers, and the checks of `Header::validate` that look at keys and certificates. */
  datatype Codec = Codec(encode: Header -> Bytes, decode: Bytes -> Option<Header>, sound: Header -> bool)

  ghost predicate Faithful(codec: Codec) {
    forall h :: codec.decode(codec.encode(h)) == Some(h)
  }

  predicate ValidHeader(codec: Codec, h: Header) {
    |h.folders| <= 128 && (forall id :: id in h.folders ==> ValidId(id)) && codec.sound(h)
  }

  function Body(entries: seq<Entry>): Bytes {
    Records(entries) + U32(0)
  }

  function Stream(header: Bytes, entries: seq<Entry>): Bytes {
    MAGIC + U32(|header|) + header + Body(entries)
  }

  /** What `extract` demands of one record, given the paths it has written. */
  predicate Fits(e: Entry, folders: seq<FolderId>, written: set<Bytes>) {
    && 0 < |e.path| <= MAX_PATH && Accepted(e.path, folders) && e.path !in written
    && |e.content| < Limit(8) && (NamesManifest(e.path) ==> |e.content| <= MAX_MANIFEST)
  }

  predicate AllFit(entries: seq<Entry>, folders: seq<FolderId>, written: set<Bytes>) {
    entries == [] || (Fits(entries[0], folders, written) && AllFit(entries[1..], folders, written + {entries[0].path}))
  }

  /** One record off the front of a stream, or the end marker. */
  datatype Token = Bad | End | Next(entry: Entry, rest: Bytes)

  function ReadRecord(s: Bytes, folders: seq<FolderId>, written: set<Bytes>): (t: Token)
    ensures t.Next? ==> |t.rest| < |s|
  {
    if |s| < 4 then Bad
    else
      var length := Value(s[..4]);
      if length == 0 then (if |s| == 4 then End else Bad)
      else if length > MAX_PATH || |s| < 4 + length then Bad
      else
        var path := s[4..4 + length];
        if !Accepted(path, folders) || |s| < 12 + length then Bad
        else
          var size := Value(s[4 + length..12 + length]);
          if (NamesManifest(path) && size > MAX_MANIFEST) || path in written || |s| < 12 + length + size then Bad
          else Next(Entry(path, s[12 + length..12 + length + size]), s[12 + length + size..])
  }

  function ParseRecords(s: Bytes, folders: seq<FolderId>, written: set<Bytes>): Option<seq<Entry>>
    decreases |s|
  {
    match ReadRecord(s, folders, written)
    case Bad => None
    case End => Some([])
    case Next(e, rest) =>
      match ParseRecords(rest, folders, written + {e.path})
      case None => None
      case Some(entries) => Some([e] + entries)
  }

  /** The header part: what is left of the stream after it. */
  function ParseHeader(codec: Codec, s: Bytes): Option<(Header, Bytes)> {
    var m := |MAGIC|;
    if |s| < m + 4 || s[..m] != MAGIC then None
    else
      var length := Value(s[m..m + 4]);
      if length > MAX_HEADER || |s| < m + 4 + length then None
      else
        match codec.decode(s[m + 4..m + 4 + length])
        case None => None
        case Some(h) => if ValidHeader(codec, h) then Some((h, s[m + 4 + length..])) else None
  }

  function Parse(codec: Codec, s: Bytes): Option<(Header, seq<Entry>)> {
    match ParseHeader(codec, s)
    case None => None
    case Some((h, rest)) =>
      match ParseRecords(rest, h.folders, {})
      case None => None
      case Some(entries) => Some((h, entries))
  }

  // ---- Reading inverts printing ----

  lemma Slices(a: Bytes, b: Bytes, c: Bytes, d: Bytes, e: Bytes)
    ensures var s := a + b + c + d + e;
      && s[..|a|] == a && s[|a|..|a| + |b|] == b && s[|a| + |b|..|a| + |b| + |c|] == c
      && s[|a| + |b| + |c|..|a| + |b| + |c| + |d|] == d && s[|a| + |b| + |c| + |d|..] == e
  {
  }

  lemma LimitsAreLarge()
    ensures MAX_PATH < Limit(4) && MAX_HEADER < Limit(4)
  {
    assert Limit(4) == 256 * Limit(3) && Limit(3) == 256 * Limit(2) && Limit(2) == 256 * Limit(1) && Limit(1) == 256;
  }

  lemma ReadsPrintedRecord(e: Entry, rest: Bytes, folders: seq<FolderId>, written: set<Bytes>)
    requires 0 < |e.path| <= MAX_PATH && |e.content| < Limit(8)
    ensures ReadRecord(Record(e) + rest, folders, written) == if Fits(e, folders, written) then Next(e, rest) else Bad
  {
    var a, c := U32(|e.path|), U64(|e.content|);
    var s := a + e.path + c + e.content + rest;
    assert Record(e) + rest == s;
    Slices(a, e.path, c, e.content, rest);
    LimitsAreLarge();
    ValueOfBigEndian(|e.path|, 4);
    ValueOfBigEndian(|e.content|, 8);
  }

  lemma EndMarkEnds(folders: seq<FolderId>, written: set<Bytes>)
    ensures ReadRecord(U32(0), folders, written) == End
  {
    ValueOfBigEndian(0, 4);
    assert U32(0)[..4] == U32(0);
  }

  lemma {:induction false} ParsesPrintedRecords(entries: seq<Entry>, folders: seq<FolderId>, written: set<Bytes>)
    requires forall e :: e in entries ==> 0 < |e.path| <= MAX_PATH && |e.content| < Limit(8)
    ensures ParseRecords(Body(entries), folders, written) == if AllFit(entries, folders, written) then Some(entries) else None
  {
    if entries == [] {
      EndMarkEnds(folders, written);
      assert Body(entries) == U32(0);
    } else {
      var e, rest := entries[0], Body(entries[1..]);
      assert Body(entries) == Record(e) + rest;
      ReadsPrintedRecord(e, rest, folders, written);
      ParsesPrintedRecords(entries[1..], folders, written + {e.path});
      assert entries == [e] + entries[1..];
    }
  }

  lemma ParsesPrintedHeader(codec: Codec, h: Header, body: Bytes)
    requires Faithful(codec) && |codec.encode(h)| <= MAX_HEADER
    ensures ParseHeader(codec, MAGIC + U32(|codec.encode(h)|) + codec.encode(h) + body)
      == if ValidHeader(codec, h) then Some((h, body)) else None
  {
    var bytes := codec.encode(h);
    var length := U32(|bytes|);
    Slices(MAGIC, length, bytes, body, []);
    assert MAGIC + length + bytes + body + [] == MAGIC + length + bytes + body;
    assert (MAGIC + length + bytes + body)[|MAGIC| + 4 + |bytes|..] == body;
    LimitsAreLarge();
    ValueOfBigEndian(|bytes|, 4);
  }

  // ---- Whatever is read could have been printed ----

  lemma ReadRecordWasPrinted(s: Bytes, folders: seq<FolderId>, written: set<Bytes>)
    ensures var t := ReadRecord(s, folders, written);
      && (t.End? ==> s == U32(0))
      && (t.Next? ==> s == Record(t.entry) + t.rest && Fits(t.entry, folders, written))
  {
    var t := ReadRecord(s, folders, written);
    if t.End? {
      BigEndianOfValue(s);
      assert s[..4] == s;
    }
    if t.Next? { NextWasPrinted(s, folders, written); }
  }

  lemma NextWasPrinted(s: Bytes, folders: seq<FolderId>, written: set<Bytes>)
    requires ReadRecord(s, folders, written).Next?
    ensures var t := ReadRecord(s, folders, written); s == Record(t.entry) + t.rest && Fits(t.entry, folders, written)
  {
    var t := ReadRecord(s, folders, written);
    var length := |t.entry.path|;
    BigEndianOfValue(s[..4]);
    BigEndianOfValue(s[4 + length..12 + length]);
    assert s == s[..4] + s[4..4 + length] + s[4 + length..12 + length] + t.entry.content + t.rest;
  }

  lemma {:induction false} ParsedRecordsWerePrinted(s: Bytes, folders: seq<FolderId>, written: set<Bytes>)
    requires ParseRecords(s, folders, written).Some?
    ensures var entries := ParseRecords(s, folders, written).value; s == Body(entries) && AllFit(entries, folders, written)
    decreases |s|
  {
    ReadRecordWasPrinted(s, folders, written);
    var t := ReadRecord(s, folders, written);
    if t.Next? {
      ParsedRecordsWerePrinted(t.rest, folders, written + {t.entry.path});
      var rest := ParseRecords(t.rest, folders, written + {t.entry.path}).value;
      var entries := [t.entry] + rest;
      assert entries[0] == t.entry && entries[1..] == rest;
      assert s == Record(t.entry) + (Records(rest) + U32(0));
    } else {
      assert Body([]) == U32(0);
    }
  }

  /** Every accepted stream is the print of what was read: no trailing bytes, no second way to read it. */
  lemma AcceptedStreamsWerePrinted(codec: Codec, s: Bytes) returns (header: Bytes)
    requires Parse(codec, s).Some?
    ensures var (h, entries) := Parse(codec, s).value;
      && s == Stream(header, entries) && codec.decode(header) == Some(h)
      && ValidHeader(codec, h) && AllFit(entries, h.folders, {})
      && |header| <= 4194304 && |h.folders| <= 128
      && (forall e :: e in entries ==> IsArchived(h.folders, e))
      && (forall i, j :: 0 <= i < j < |entries| ==> entries[i].path != entries[j].path)
  {
    var m := |MAGIC|;
    var length := Value(s[m..m + 4]);
    header := s[m + 4..m + 4 + length];
    var rest := s[m + 4 + length..];
    var h := Parse(codec, s).value.0;
    ParsedRecordsWerePrinted(rest, h.folders, {});
    BigEndianOfValue(s[m..m + 4]);
    assert s == s[..m] + s[m..m + 4] + header + rest;
    var entries := Parse(codec, s).value.1;
    FittingPathsAreDistinct(entries, h.folders, {});
    FittingIsPointwise(entries, h.folders, {});
    forall e | e in entries ensures IsArchived(h.folders, e) { FittingIsArchived(h.folders, e); }
  }

  /** What an archive may hold: a bounded manifest, an index, or an object named by a hash, of a folder in its header. */
  ghost predicate IsArchived(folders: seq<FolderId>, e: Entry) {
    exists id :: id in folders && ArchivedIn(id, e)
  }

  ghost predicate ArchivedIn(id: FolderId, e: Entry) {
    || (e.path == Ascii("folders/") + id + Ascii("/manifest.json") && |e.content| <= 131072)
    || e.path == Ascii("folders/") + id + Ascii("/index.sqlite")
    || exists hash :: e.path == ObjectPath(id, hash) && |hash| == 64 && forall b :: b in hash ==> 48 <= b <= 57 || 97 <= b <= 102
  }

  function ObjectPath(id: FolderId, hash: Bytes): Bytes {
    Ascii("folders/") + id + Ascii("/objects/") + hash
  }

  lemma FittingIsArchived(folders: seq<FolderId>, e: Entry)
    requires FitsAlone(e, folders) && forall id :: id in folders ==> ValidId(id)
    ensures IsArchived(folders, e)
  {
    AcceptedIsPrinted(e.path, folders);
    var id, kind: Kind :| id in folders && kind.Proper() && e.path == PathOf(id, kind);
    PathsSpelled(id, if kind.Object? then kind.hash else []);
    if kind.Manifest? { ItemFits(Item(id, kind, e.content), folders); }
    if kind.Object? { assert e.path == ObjectPath(id, kind.hash); }
    assert ArchivedIn(id, e);
  }

  lemma {:induction false} FittingPathsAreDistinct(entries: seq<Entry>, folders: seq<FolderId>, written: set<Bytes>)
    requires AllFit(entries, folders, written)
    ensures forall e :: e in entries ==> Accepted(e.path, folders) && e.path !in written
    ensures forall i, j :: 0 <= i < j < |entries| ==> entries[i].path != entries[j].path
  {
    if entries != [] {
      FittingPathsAreDistinct(entries[1..], folders, written + {entries[0].path});
      assert forall i :: 0 < i < |entries| ==> entries[i] == entries[1..][i - 1] && entries[i] in entries[1..];
    }
  }

  // ---- Whole archives ----

  /** A staged folder: its manifest, its index, and its objects in the order in which the directory lists them. */
  datatype Staged = Staged(manifest: Bytes, index: Bytes, objects: seq<(Bytes, Bytes)>)

  datatype Item = Item(id: FolderId, kind: Kind, content: Bytes) {
    function Printed(): Entry { Entry(PathOf(id, kind), content) }
  }

  function FixedItems(id: FolderId, f: Staged): seq<Item> {
    [Item(id, Manifest, f.manifest), Item(id, Index, f.index)]
  }

  function ObjectItems(id: FolderId, objects: seq<(Bytes, Bytes)>): seq<Item> {
    seq(|objects|, i requires 0 <= i < |objects| => Item(id, Object(objects[i].0), objects[i].1))
  }

  function Items(folders: seq<FolderId>, staging: map<FolderId, Staged>): seq<Item>
    requires forall id :: id in folders ==> id in staging
  {
    if folders == [] then []
    else
      var id := folders[|folders| - 1];
      Items(folders[..|folders| - 1], staging) + FixedItems(id, staging[id]) + ObjectItems(id, staging[id].objects)
  }

  function Entries(items: seq<Item>): seq<Entry> {
    seq(|items|, i requires 0 <= i < |items| => items[i].Printed())
  }

  function Files(entries: seq<Entry>): map<Bytes, Bytes> {
    if entries == [] then map[]
    else Files(entries[..|entries| - 1])[entries[|entries| - 1].path := entries[|entries| - 1].content]
  }

  predicate HashNames(f: Staged) {
    forall o :: o in f.objects ==> ValidHash(o.0)
  }

  predicate DistinctNames(f: Staged) {
    forall i, j :: 0 <= i < j < |f.objects| ==> f.objects[i].0 != f.objects[j].0
  }

  predicate FileSizes(f: Staged) {
    |f.manifest| < Limit(8) && |f.index| < Limit(8) && forall o :: o in f.objects ==> |o.1| < Limit(8)
  }

  /** A directory tree: folder names and object names occur once, and a length fits a u64. */
  predicate Tree(folders: seq<FolderId>, staging: map<FolderId, Staged>) {
    && (forall i, j :: 0 <= i < j < |folders| ==> folders[i] != folders[j])
    && (forall id :: id in folders ==> id in staging && DistinctNames(staging[id]) && FileSizes(staging[id]))
  }

  predicate SameItem(a: Item, b: Item) {
    a.id == b.id && a.kind == b.kind
  }

  predicate ProperItem(x: Item, folders: seq<FolderId>, staging: map<FolderId, Staged>)
    requires forall id :: id in folders ==> id in staging
  {
    && x.id in folders && x.kind.Proper() && |x.content| < Limit(8)
    && (x.kind.Manifest? ==> x.content == staging[x.id].manifest)
  }

  lemma FolderItemsAreProper(folders: seq<FolderId>, staging: map<FolderId, Staged>, id: FolderId)
    requires Tree(folders, staging) && id in folders && HashNames(staging[id])
    ensures forall x :: x in FixedItems(id, staging[id]) ==> ProperItem(x, folders, staging) && !x.kind.Object?
    ensures forall x :: x in ObjectItems(id, staging[id].objects) ==> ProperItem(x, folders, staging) && x.kind.Object? && x.id == id
  {
    var c := ObjectItems(id, staging[id].objects);
    forall x | x in c
      ensures ProperItem(x, folders, staging) && x.kind.Object? && x.id == id
    {
      var i :| 0 <= i < |c| && c[i] == x;
      assert staging[id].objects[i] in staging[id].objects;
    }
  }

  lemma {:induction false} ItemsAreProper(folders: seq<FolderId>, staging: map<FolderId, Staged>)
    requires Tree(folders, staging) && forall id :: id in folders ==> HashNames(staging[id])
    ensures forall x :: x in Items(folders, staging) ==> ProperItem(x, folders, staging)
    ensures forall id :: id in folders ==> Item(id, Manifest, staging[id].manifest) in Items(folders, staging)
  {
    if folders != [] {
      var n := |folders| - 1;
      var front, id := folders[..n], folders[n];
      ItemsAreProper(front, staging);
      FolderItemsAreProper(folders, staging, id);
      var a, b, c := Items(front, staging), FixedItems(id, staging[id]), ObjectItems(id, staging[id].objects);
      assert Items(folders, staging) == a + b + c;
      assert b[0] in b;
      assert forall x :: x in a ==> ProperItem(x, front, staging);
    }
  }

  predicate Apart(a: seq<Item>, b: seq<Item>) {
    forall i, j :: 0 <= i < |a| && 0 <= j < |b| ==> !SameItem(a[i], b[j])
  }

  predicate Distinct(a: seq<Item>) {
    forall i, j :: 0 <= i < j < |a| ==> !SameItem(a[i], a[j])
  }

  lemma DistinctAppend(a: seq<Item>, b: seq<Item>)
    requires Distinct(a) && Distinct(b) && Apart(a, b)
    ensures Distinct(a + b)
  {
  }

  lemma ApartAppend(a: seq<Item>, b: seq<Item>, c: seq<Item>)
    requires Apart(a, c) && Apart(b, c)
    ensures Apart(a + b, c)
  {
  }

  /** No path is printed twice. */
  lemma {:induction false} ItemsAreDistinct(folders: seq<FolderId>, staging: map<FolderId, Staged>)
    requires Tree(folders, staging) && forall id :: id in folders ==> HashNames(staging[id])
    ensures Distinct(Items(folders, staging))
  {
    if folders != [] {
      var n := |folders| - 1;
      var front, id := folders[..n], folders[n];
      ItemsAreDistinct(front, staging);
      ItemsAreProper(front, staging);
      var a, b, c := Items(front, staging), FixedItems(id, staging[id]), ObjectItems(id, staging[id].objects);
      assert id !in front;
      forall i | 0 <= i < |a|
        ensures a[i].id != id
      {
        assert a[i] in a;
      }
      assert DistinctNames(staging[id]);
      assert Distinct(b) && Distinct(c) && Apart(a, b) && Apart(a, c) && Apart(b, c);
      DistinctAppend(a, b);
      ApartAppend(a, b, c);
      DistinctAppend(a + b, c);
    }
  }

  predicate FitsAlone(e: Entry, folders: seq<FolderId>) {
    Fits(e, folders, {})
  }

  lemma {:induction false} FittingIsPointwise(entries: seq<Entry>, folders: seq<FolderId>, written: set<Bytes>)
    requires forall i, j :: 0 <= i < j < |entries| ==> entries[i].path != entries[j].path
    requires forall e :: e in entries ==> e.path !in written
    ensures AllFit(entries, folders, written) <==> forall e :: e in entries ==> FitsAlone(e, folders)
  {
    if entries != [] {
      var e := entries[0];
      forall x | x in entries[1..]
        ensures x.path !in written + {e.path} && x in entries
      {
        var i :| 0 <= i < |entries[1..]| && entries[1..][i] == x;
        assert entries[i + 1] == x;
      }
      FittingIsPointwise(entries[1..], folders, written + {e.path});
      assert forall x :: x in entries ==> x == e || x in entries[1..];
      assert Fits(e, folders, written) <==> FitsAlone(e, folders);
    }
  }

  predicate SmallItem(x: Item) {
    x.kind.Manifest? ==> |x.content| <= MAX_MANIFEST
  }

  lemma ItemFits(x: Item, folders: seq<FolderId>)
    requires x.id in folders && ValidId(x.id) && x.kind.Proper() && |x.content| < Limit(8)
    ensures FitsAlone(x.Printed(), folders) <==> SmallItem(x)
    ensures 0 < |x.Printed().path| <= MAX_PATH
  {
    PartsOfPath(x.id, x.kind);
    PrintedPathsFit(x.id, x.kind);
    var parts := Split(PathOf(x.id, x.kind));
    assert parts[2..] == x.kind.Parts();
    assert MANIFEST != INDEX by { assert |MANIFEST| != |INDEX|; }
    assert MANIFEST != OBJECTS by { assert |MANIFEST| != |OBJECTS|; }
  }

  predicate SmallManifests(folders: seq<FolderId>, staging: map<FolderId, Staged>)
    requires forall id :: id in folders ==> id in staging
  {
    forall id :: id in folders ==> |staging[id].manifest| <= MAX_MANIFEST
  }

  lemma PrintedTreeFits(folders: seq<FolderId>, staging: map<FolderId, Staged>)
    requires Tree(folders, staging) && forall id :: id in folders ==> ValidId(id) && HashNames(staging[id])
    ensures AllFit(Entries(Items(folders, staging)), folders, {}) <==> SmallManifests(folders, staging)
    ensures forall e :: e in Entries(Items(folders, staging)) ==> 0 < |e.path| <= MAX_PATH && |e.content| < Limit(8)
  {
    var items := Items(folders, staging);
    var entries := Entries(items);
    ItemsAreProper(folders, staging);
    ItemsAreDistinct(folders, staging);
    forall i | 0 <= i < |items|
      ensures ProperItem(items[i], folders, staging) && (FitsAlone(entries[i], folders) <==> SmallItem(items[i]))
      ensures 0 < |entries[i].path| <= MAX_PATH && |entries[i].content| < Limit(8)
    {
      assert items[i] in items;
      ItemFits(items[i], folders);
    }
    forall i, j | 0 <= i < j < |entries|
      ensures entries[i].path != entries[j].path
    {
      assert items[i] in items && items[j] in items && !SameItem(items[i], items[j]);
      if entries[i].path == entries[j].path {
        PathsAreDistinct(items[i].id, items[i].kind, items[j].id, items[j].kind);
      }
    }
    FittingIsPointwise(entries, folders, {});
    FitsMeansSmall(folders, staging, items, entries);
  }

  lemma FitsMeansSmall(folders: seq<FolderId>, staging: map<FolderId, Staged>, items: seq<Item>, entries: seq<Entry>)
    requires |entries| == |items| && forall id :: id in folders ==> id in staging
    requires forall i :: 0 <= i < |items| ==> ProperItem(items[i], folders, staging)
    requires forall id :: id in folders ==> Item(id, Manifest, staging[id].manifest) in items
    requires forall i :: 0 <= i < |entries| ==> (FitsAlone(entries[i], folders) <==> SmallItem(items[i]))
    ensures (forall e :: e in entries ==> FitsAlone(e, folders)) <==> SmallManifests(folders, staging)
  {
    if SmallManifests(folders, staging) {
      forall e | e in entries
        ensures FitsAlone(e, folders)
      {
        var i :| 0 <= i < |entries| && entries[i] == e;
        assert ProperItem(items[i], folders, staging);
      }
    }
    if forall e :: e in entries ==> FitsAlone(e, folders) {
      forall id | id in folders
        ensures |staging[id].manifest| <= MAX_MANIFEST
      {
        var x := Item(id, Manifest, staging[id].manifest);
        var i :| 0 <= i < |items| && items[i] == x;
        assert entries[i] in entries;
      }
    }
  }

  /**
   Reading back what was printed gives the same header and the same files, exactly when the header passes its own
   validation and every manifest respects the reader's bound (which the writer does not check).
   */
  lemma RoundTrip(codec: Codec, h: Header, staging: map<FolderId, Staged>)
    requires Faithful(codec) && |codec.encode(h)| <= MAX_HEADER
    requires Tree(h.folders, staging) && forall id :: id in h.folders ==> ValidId(id) && HashNames(staging[id])
    ensures var entries := Entries(Items(h.folders, staging));
      Parse(codec, Stream(codec.encode(h), entries)) ==
        if ValidHeader(codec, h) && SmallManifests(h.folders, staging) then Some((h, entries)) else None
  {
    var entries := Entries(Items(h.folders, staging));
    PrintedTreeFits(h.folders, staging);
    ParsesPrintedHeader(codec, h, Body(entries));
    ParsesPrintedRecords(entries, h.folders, {});
  }

  /** A staged file with the path it is archived under. */
  predicate IsStaged(folders: seq<FolderId>, staging: map<FolderId, Staged>, e: Entry)
    requires forall id :: id in folders ==> id in staging
  {
    exists id :: id in folders && StagedIn(id, staging[id], e)
  }

  predicate StagedIn(id: FolderId, f: Staged, e: Entry) {
    || e == Entry(Ascii("folders/") + id + Ascii("/manifest.json"), f.manifest)
    || e == Entry(Ascii("folders/") + id + Ascii("/index.sqlite"), f.index)
    || exists o :: o in f.objects && e == Entry(Ascii("folders/") + id + Ascii("/objects/") + o.0, o.1)
  }

  lemma FolderEntries(id: FolderId, f: Staged, e: Entry)
    ensures e in Entries(FixedItems(id, f) + ObjectItems(id, f.objects)) <==> StagedIn(id, f, e)
  {
    var entries := Entries(FixedItems(id, f) + ObjectItems(id, f.objects));
    FolderEntryAt(id, f);
    if e in entries {
      var k :| 0 <= k < |entries| && entries[k] == e;
      if k >= 2 { assert f.objects[k - 2] in f.objects; }
    }
    if o :| o in f.objects && e == Entry(Ascii("folders/") + id + Ascii("/objects/") + o.0, o.1) {
      var k :| 0 <= k < |f.objects| && f.objects[k] == o;
      assert entries[2 + k] == e;
    }
  }

  lemma FolderEntryAt(id: FolderId, f: Staged)
    ensures var entries := Entries(FixedItems(id, f) + ObjectItems(id, f.objects));
      && |entries| == 2 + |f.objects|
      && entries[0] == Entry(Ascii("folders/") + id + Ascii("/manifest.json"), f.manifest)
      && entries[1] == Entry(Ascii("folders/") + id + Ascii("/index.sqlite"), f.index)
      && forall k :: 2 <= k < |entries| ==>
        entries[k] == Entry(Ascii("folders/") + id + Ascii("/objects/") + f.objects[k - 2].0, f.objects[k - 2].1)
  {
    var items := FixedItems(id, f) + ObjectItems(id, f.objects);
    PathsSpelled(id, []);
    forall k | 2 <= k < |items|
      ensures Entries(items)[k] == Entry(Ascii("folders/") + id + Ascii("/objects/") + f.objects[k - 2].0, f.objects[k - 2].1)
    {
      PathsSpelled(id, f.objects[k - 2].0);
      assert items[k] == ObjectItems(id, f.objects)[k - 2];
    }
  }

  /** The archive holds every staged file of every folder, and nothing else. */
  lemma {:induction false} EntriesAreTheStagedFiles(folders: seq<FolderId>, staging: map<FolderId, Staged>, e: Entry)
    requires forall id :: id in folders ==> id in staging
    ensures e in Entries(Items(folders, staging)) <==> IsStaged(folders, staging, e)
  {
    if folders != [] {
      var n := |folders| - 1;
      var front, id := folders[..n], folders[n];
      var a, b := Items(front, staging), FixedItems(id, staging[id]) + ObjectItems(id, staging[id].objects);
      EntriesAreTheStagedFiles(front, staging, e);
      FolderEntries(id, staging[id], e);
      assert Items(folders, staging) == a + b;
      assert Entries(a + b) == Entries(a) + Entries(b);
      assert forall x :: x in folders <==> x in front || x == id;
    }
  }

  /** What `extract` creates from what `encode` printed: exactly the staged files, each under its path. */
  lemma RoundTripFiles(codec: Codec, h: Header, staging: map<FolderId, Staged>, path: Bytes)
    requires Faithful(codec) && |codec.encode(h)| <= MAX_HEADER
    requires Tree(h.folders, staging) && forall id :: id in h.folders ==> ValidId(id) && HashNames(staging[id])
    requires Parse(codec, Stream(codec.encode(h), Entries(Items(h.folders, staging)))).Some?
    ensures var (header, entries) := Parse(codec, Stream(codec.encode(h), Entries(Items(h.folders, staging)))).value;
      header == h && (path in Files(entries) <==> exists content :: IsStaged(h.folders, staging, Entry(path, content)))
      && (path in Files(entries) ==> IsStaged(h.folders, staging, Entry(path, Files(entries)[path])))
  {
    var entries := Entries(Items(h.folders, staging));
    RoundTrip(codec, h, staging);
    PrintedTreeFits(h.folders, staging);
    FittingPathsAreDistinct(entries, h.folders, {});
    FilesAreTheEntries(entries);
    forall content ensures Entry(path, content) in entries <==> IsStaged(h.folders, staging, Entry(path, content)) {
      EntriesAreTheStagedFiles(h.folders, staging, Entry(path, content));
    }
    if path in Files(entries) {
      assert Entry(path, Files(entries)[path]) in entries;
    }
  }

  /** With no path twice, the files created are exactly the entries read. */
  lemma {:induction false} FilesAreTheEntries(entries: seq<Entry>)
    requires forall i, j :: 0 <= i < j < |entries| ==> entries[i].path != entries[j].path
    ensures forall e :: e in entries ==> e.path in Files(entries) && Files(entries)[e.path] == e.content
    ensures forall p :: p in Files(entries) ==> Entry(p, Files(entries)[p]) in entries
  {
    if entries != [] {
      var n := |entries| - 1;
      FilesAreTheEntries(entries[..n]);
      forall e | e in entries
        ensures e.path in Files(entries) && Files(entries)[e.path] == e.content
      {
        var i :| 0 <= i < |entries| && entries[i] == e;
        if i < n { assert entries[..n][i] == e; }
      }
      forall p | p in Files(entries)
        ensures Entry(p, Files(entries)[p]) in entries
      {
        if p != entries[n].path { assert Entry(p, Files(entries)[p]) in entries[..n]; }
      }
    }
  }

  lemma Associate(a: Bytes, b: Bytes, c: Bytes)
    ensures a + b + c == a + (b + c)
  {
  }

  lemma {:induction false} RecordsAppend(a: seq<Entry>, b: seq<Entry>)
    ensures Records(a + b) == Records(a) + Records(b)
  {
    if a == [] {
      assert a + b == b;
    } else {
      RecordsAppend(a[1..], b);
      assert (a + b)[1..] == a[1..] + b;
      RecordsCons(a + b);
      RecordsCons(a);
      Associate(Record(a[0]), Records(a[1..]), Records(b));
    }
  }

  lemma RecordsCons(a: seq<Entry>)
    requires a != []
    ensures Records(a) == Record(a[0]) + Records(a[1..])
  {
  }

  /** `write_record`. */
  method WriteRecord(output: Bytes, path: Bytes, content: Bytes) returns (output': Bytes)
    ensures output' == output + Record(Entry(path, content))
    ensures output' == output + U32(|path|) + path + U64(|content|) + content
  {
    output' := output + U32(|path|);
    output' := output' + path;
    output' := output' + U64(|content|);
    output' := output' + content;
  }

  method EncodeObjects(output: Bytes, id: FolderId, objects: seq<(Bytes, Bytes)>) returns (r: Result<Bytes>)
    ensures r.Ok? <==> forall o :: o in objects ==> ValidHash(o.0)
    ensures r.Ok? ==> r.value == output + Records(Entries(ObjectItems(id, objects)))
  {
    var output' := output;
    ghost var items := ObjectItems(id, objects);
    for i := 0 to |objects|
      invariant forall j :: 0 <= j < i ==> ValidHash(objects[j].0)
      invariant output' == output + Records(Entries(items[..i]))
    {
      var (hash, content) := objects[i];
      if !ValidHash(hash) {
        assert objects[i] in objects;
        return Err(BadArchive);
      }
      output' := WriteRecord(output', Joined([FOLDERS, id, OBJECTS, hash]), content);
      assert [FOLDERS, id] + Object(hash).Parts() == [FOLDERS, id, OBJECTS, hash];
      assert items[i].Printed() == Entry(Joined([FOLDERS, id, OBJECTS, hash]), content);
      AppendItem(items, i);
      Associate(output, Records(Entries(items[..i])), Record(items[i].Printed()));
    }
    assert items[..|objects|] == items;
    r := Ok(output');
  }

  lemma PrintedAppend(a: seq<Item>, b: seq<Item>)
    ensures Records(Entries(a + b)) == Records(Entries(a)) + Records(Entries(b))
  {
    assert Entries(a + b) == Entries(a) + Entries(b);
    RecordsAppend(Entries(a), Entries(b));
  }

  lemma PrintedOne(x: Item)
    ensures Records(Entries([x])) == Record(x.Printed())
  {
    RecordsCons(Entries([x]));
    assert Entries([x])[1..] == [];
  }

  lemma AppendItem(items: seq<Item>, i: nat)
    requires i < |items|
    ensures Records(Entries(items[..i + 1])) == Records(Entries(items[..i])) + Record(items[i].Printed())
  {
    assert items[..i + 1] == items[..i] + [items[i]];
    PrintedAppend(items[..i], [items[i]]);
    PrintedOne(items[i]);
  }

  function FolderBytes(id: FolderId, f: Staged): Bytes {
    Record(Entry(PathOf(id, Manifest), f.manifest)) + Record(Entry(PathOf(id, Index), f.index))
    + Records(Entries(ObjectItems(id, f.objects)))
  }

  lemma AppendFolder(folders: seq<FolderId>, staging: map<FolderId, Staged>, i: nat)
    requires i < |folders| && forall id :: id in folders ==> id in staging
    ensures Records(Entries(Items(folders[..i + 1], staging)))
      == Records(Entries(Items(folders[..i], staging))) + FolderBytes(folders[i], staging[folders[i]])
  {
    var id := folders[i];
    var a, b, c := Items(folders[..i], staging), FixedItems(id, staging[id]), ObjectItems(id, staging[id].objects);
    assert folders[..i + 1][..i] == folders[..i];
    assert Items(folders[..i + 1], staging) == a + b + c;
    PrintedAppend(a + b, c);
    PrintedAppend(a, b);
    assert b == [b[0]] + [b[1]];
    PrintedAppend([b[0]], [b[1]]);
    PrintedOne(b[0]);
    PrintedOne(b[1]);
    Associate(Records(Entries(a)), Records(Entries(b)), Records(Entries(c)));
  }

  /** The records of the first `n` folders, one folder after the other. */
  function FirstFolders(folders: seq<FolderId>, staging: map<FolderId, Staged>, n: nat): Bytes
    requires n <= |folders| && forall id :: id in folders ==> id in staging
  {
    if n == 0 then [] else FirstFolders(folders, staging, n - 1) + FolderBytes(folders[n - 1], staging[folders[n - 1]])
  }

  lemma {:induction false} FoldersAreRecords(folders: seq<FolderId>, staging: map<FolderId, Staged>, n: nat)
    requires n <= |folders| && forall id :: id in folders ==> id in staging
    ensures FirstFolders(folders, staging, n) == Records(Entries(Items(folders[..n], staging)))
  {
    if n > 0 {
      FoldersAreRecords(folders, staging, n - 1);
      AppendFolder(folders, staging, n - 1);
    }
  }

  predicate FirstNamed(folders: seq<FolderId>, staging: map<FolderId, Staged>, n: nat)
    requires n <= |folders| && forall id :: id in folders ==> id in staging
  {
    n == 0 || (FirstNamed(folders, staging, n - 1) && HashNames(staging[folders[n - 1]]))
  }

  predicate AllNamed(folders: seq<FolderId>, staging: map<FolderId, Staged>)
    requires forall id :: id in folders ==> id in staging
  {
    forall id :: id in folders ==> HashNames(staging[id])
  }

  lemma {:induction false} NamedBelow(folders: seq<FolderId>, staging: map<FolderId, Staged>, n: nat, m: nat)
    requires m <= n <= |folders| && forall id :: id in folders ==> id in staging
    requires FirstNamed(folders, staging, n)
    ensures FirstNamed(folders, staging, m)
  {
    if m < n { NamedBelow(folders, staging, n - 1, m); }
  }

  lemma {:induction false} NamedUpTo(folders: seq<FolderId>, staging: map<FolderId, Staged>, n: nat)
    requires n <= |folders| && forall id :: id in folders ==> id in staging
    requires AllNamed(folders, staging)
    ensures FirstNamed(folders, staging, n)
  {
    if n > 0 { NamedUpTo(folders, staging, n - 1); }
  }

  lemma NamedIsPointwise(folders: seq<FolderId>, staging: map<FolderId, Staged>)
    requires forall id :: id in folders ==> id in staging
    ensures AllNamed(folders, staging) <==> FirstNamed(folders, staging, |folders|)
    ensures AllNamed(folders, staging) <==> forall n :: 0 <= n <= |folders| ==> FirstNamed(folders, staging, n)
  {
    if FirstNamed(folders, staging, |folders|) {
      forall id | id in folders
        ensures HashNames(staging[id])
      {
        var j :| 0 <= j < |folders| && folders[j] == id;
        NamedBelow(folders, staging, |folders|, j + 1);
      }
    }
    if AllNamed(folders, staging) {
      forall n | 0 <= n <= |folders|
        ensures FirstNamed(folders, staging, n)
      {
        NamedUpTo(folders, staging, n);
      }
    }
  }

  /** One turn of the outer loop of `encode`. */
  method EncodeFolder(output: Bytes, id: FolderId, f: Staged) returns (r: Result<Bytes>)
    ensures r.Ok? <==> HashNames(f)
    ensures r.Ok? ==> r.value == output + FolderBytes(id, f)
  {
    ghost var x, y := Record(Entry(PathOf(id, Manifest), f.manifest)), Record(Entry(PathOf(id, Index), f.index));
    var first := WriteRecord(output, PathOf(id, Manifest), f.manifest);
    var second := WriteRecord(first, PathOf(id, Index), f.index);
    Associate(output, x, y);
    r := EncodeObjects(second, id, f.objects);
    Associate(output, x + y, Records(Entries(ObjectItems(id, f.objects))));
  }

  method EncodeFolders(output: Bytes, folders: seq<FolderId>, staging: map<FolderId, Staged>) returns (r: Result<Bytes>)
    requires forall id :: id in folders ==> id in staging
    ensures r.Ok? <==> AllNamed(folders, staging)
    ensures r.Ok? ==> r.value == output + FirstFolders(folders, staging, |folders|)
  {
    NamedIsPointwise(folders, staging);
    var output' := output;
    assert output + [] == output;
    for i := 0 to |folders|
      invariant FirstNamed(folders, staging, i)
      invariant output' == output + FirstFolders(folders, staging, i)
    {
      OneMoreFolder(output, folders, staging, i);
      output' :- EncodeFolder(output', folders[i], staging[folders[i]]);
    }
    r := Ok(output');
  }

  lemma OneMoreFolder(output: Bytes, folders: seq<FolderId>, staging: map<FolderId, Staged>, i: nat)
    requires i < |folders| && forall id :: id in folders ==> id in staging
    ensures output + FirstFolders(folders, staging, i) + FolderBytes(folders[i], staging[folders[i]])
      == output + FirstFolders(folders, staging, i + 1)
  {
    Associate(output, FirstFolders(folders, staging, i), FolderBytes(folders[i], staging[folders[i]]));
  }

  /** `encode` before encryption. */
  method Encode(codec: Codec, h: Header, staging: map<FolderId, Staged>) returns (r: Result<Bytes>)
    requires forall id :: id in h.folders ==> id in staging
    ensures r.Ok? <==> |codec.encode(h)| <= MAX_HEADER && AllNamed(h.folders, staging)
    ensures r.Ok? ==> forall id, o :: id in h.folders && o in staging[id].objects ==>
      |o.0| == 64 && forall b :: b in o.0 ==> 48 <= b <= 57 || 97 <= b <= 102
    ensures r.Ok? ==> r.value == Stream(codec.encode(h), Entries(Items(h.folders, staging)))
    ensures r.Ok? ==> Ascii("EVERYWHERE-DEVICE-1\n") + U32(|codec.encode(h)|) + codec.encode(h) <= r.value
  {
    var output := MAGIC;
    var bytes := codec.encode(h);
    if |bytes| > MAX_HEADER {
      return Err(BadArchive);
    }
    output := output + U32(|bytes|) + bytes;
    var records :- EncodeFolders(output, h.folders, staging);
    FoldersAreRecords(h.folders, staging, |h.folders|);
    assert h.folders[..|h.folders|] == h.folders;
    Associate(output, Records(Entries(Items(h.folders, staging))), U32(0));
    r := Ok(records + U32(0));
  }

  // ---- Extraction ----

  class Reader {
    var rest: Bytes

    constructor (input: Bytes)
      ensures rest == input
    {
      rest := input;
    }

    /** `read_exact`. */
    method Exact(n: nat) returns (r: Result<Bytes>)
      modifies this
      ensures if n <= |old(rest)| then r == Ok(old(rest)[..n]) && rest == old(rest)[n..] else r.Err? && rest == old(rest)
    {
      if |rest| < n {
        return Err(BadArchive);
      }
      r := Ok(rest[..n]);
      rest := rest[n..];
    }

    /** One turn of the loop of `extract`; `Ok(None)` at the end marker. */
    method Record(folders: seq<FolderId>, files: map<Bytes, Bytes>) returns (r: Result<Option<Entry>>)
      modifies this
      ensures var t := ReadRecord(old(rest), folders, files.Keys);
        && (t.Next? <==> r.Ok? && r.value.Some?)
        && (t.Next? ==> r == Ok(Some(t.entry)) && rest == t.rest)
        && (t.End? <==> r == Ok(None) && rest == [])
    {
      ghost var s := rest;
      var number :- Exact(4);
      var length := Value(number);
      if length == 0 {
        return Ok(None);
      }
      if length > MAX_PATH {
        return Err(BadArchive);
      }
      var path :- Exact(length);
      assert path == s[4..4 + length];
      if !Accepted(path, folders) {
        return Err(BadArchive);
      }
      assert rest == s[4 + length..];
      number :- Exact(8);
      assert number == s[4 + length..12 + length];
      var size := Value(number);
      if NamesManifest(path) && size > MAX_MANIFEST {
        return Err(BadArchive);
      }
      if path in files {
        return Err(BadArchive);
      }
      assert rest == s[12 + length..];
      var content :- Exact(size);
      assert content == s[12 + length..12 + length + size];
      assert rest == s[12 + length + size..];
      r := Ok(Some(Entry(path, content)));
    }

    method Header(codec: Codec) returns (r: Result<Header>)
      modifies this
      ensures r.Ok? <==> ParseHeader(codec, old(rest)).Some?
      ensures r.Ok? ==> ParseHeader(codec, old(rest)) == Some((r.value, rest))
    {
      ghost var s := rest;
      var magic :- Exact(|MAGIC|);
      if magic != MAGIC {
        return Err(BadArchive);
      }
      var number :- Exact(4);
      assert number == s[|MAGIC|..|MAGIC| + 4];
      var length := Value(number);
      if length > MAX_HEADER {
        return Err(BadArchive);
      }
      assert rest == s[|MAGIC| + 4..];
      var bytes :- Exact(length);
      assert bytes == s[|MAGIC| + 4..|MAGIC| + 4 + length];
      assert rest == s[|MAGIC| + 4 + length..];
      match codec.decode(bytes) {
        case None => r := Err(BadArchive);
        case Some(h) => r := if ValidHeader(codec, h) then Ok(h) else Err(BadArchive);
      }
    }
  }

  function Prepended(done: seq<Entry>, more: Option<seq<Entry>>): Option<seq<Entry>> {
    match more
    case None => None
    case Some(entries) => Some(done + entries)
  }

  lemma PrependOne(done: seq<Entry>, e: Entry, more: Option<seq<Entry>>)
    ensures Prepended(done, Prepended([e], more)) == Prepended(done + [e], more)
    ensures Prepended([], more) == more
  {
    if more.Some? {
      assert done + ([e] + more.value) == done + [e] + more.value;
      assert [] + more.value == more.value;
    }
  }

  lemma ParseOne(s: Bytes, folders: seq<FolderId>, written: set<Bytes>)
    ensures var t := ReadRecord(s, folders, written);
      ParseRecords(s, folders, written) == match t
        case Bad => None
        case End => Some([])
        case Next(e, rest) => Prepended([e], ParseRecords(rest, folders, written + {e.path}))
  {
  }

  /** `extract`: the header and the files it creates. */
  method Extract(codec: Codec, input: Bytes) returns (r: Result<(Header, map<Bytes, Bytes>)>)
    ensures r.Ok? <==> Parse(codec, input).Some?
    ensures r.Ok? ==> r.value == (Parse(codec, input).value.0, Files(Parse(codec, input).value.1))
  {
    var reader := new Reader(input);
    var h :- reader.Header(codec);
    var files :- ExtractRecords(reader, h.folders);
    r := Ok((h, files));
  }

  method ExtractRecords(reader: Reader, folders: seq<FolderId>) returns (r: Result<map<Bytes, Bytes>>)
    modifies reader
    ensures var parsed := ParseRecords(old(reader.rest), folders, {});
      (r.Ok? <==> parsed.Some?) && (r.Ok? ==> r.value == Files(parsed.value))
  {
    ghost var parsed := ParseRecords(reader.rest, folders, {});
    ghost var done: seq<Entry> := [];
    var files: map<Bytes, Bytes> := map[];
    PrependOne([], Entry([], []), parsed);
    assert files.Keys == {};
    var record := Some(Entry([], []));
    while record.Some?
      invariant files == Files(done)
      invariant record.Some? ==> parsed == Prepended(done, ParseRecords(reader.rest, folders, files.Keys))
      invariant record.None? ==> parsed == if reader.rest == [] then Some(done) else None
      decreases record.Some?, |reader.rest|
    {
      ghost var written := files.Keys;
      assert done + [] == done;
      ParseOne(reader.rest, folders, files.Keys);
      record :- reader.Record(folders, files);
      if record.Some? {
        var e := record.value;
        PrependOne(done, e, ParseRecords(reader.rest, folders, written + {e.path}));
        assert (done + [e])[..|done|] == done;
        files := files[e.path := e.content];
        assert files.Keys == written + {e.path};
        done := done + [e];
      }
    }
    if reader.rest != [] {
      return Err(BadArchive);
    }
    r := Ok(files);
  }
}
