/**
 Off-host backup transfer (backend/scripts/payment_db_offhost_sender.py, payment_db_offhost_receiver.py):
 one header line, the manifest, the database, and nothing after it, read back in chunks of any size.
 */
module TransferFraming {
  import opened Wrappers

  const PROTOCOL_VERSION := 1
  const MAX_HEADER_BYTES := 4096
  const MAX_MANIFEST_BYTES := 128 * 1024
  const MAX_BACKUP_BYTES := 8 * 1024 * 1024 * 1024
  const COPY_CHUNK_BYTES := 1024 * 1024
  const NEWLINE: Byte := 10

  datatype TransferError =
    | HeaderMissing
    | HeaderTooLong
    | HeaderInvalid
    | UnsupportedProtocol
    | BadBackupName
    | NameMismatch
    | SizeOutOfRange
    | AlreadyExists
    | Truncated
    | ManifestInvalid
    | ManifestMismatch
    | TrailingData
    | DrillFailed

  datatype Header = Header(version: int, backupFile: string, backupSize: int, manifestFile: string, manifestSize: int)

  /** A decoded JSON object: `None` for a field that is missing or of another type. */
  datatype RawHeader = RawHeader(version: Option<int>, backupFile: Option<string>, backupSize: Option<int>,
                                 manifestFile: Option<string>, manifestSize: Option<int>)

  datatype Manifest = Manifest(backupFile: string, sizeBytes: int)

  /** What lies outside the framing: the JSON text of headers, the manifest parser, the restore drill. */
  datatype Outside = Outside(encode: Header -> seq<Byte>, decode: seq<Byte> -> Option<RawHeader>,
                             parse: seq<Byte> -> Option<Manifest>, drill: (seq<Byte>, seq<Byte>) -> bool)
  {
    /** A header is written on one line, reads back as itself, and a proper one is short. */
    ghost predicate Faithful() {
      && (forall h: Header :: NEWLINE !in encode(h))
      && (forall h: Header :: decode(encode(h) + [NEWLINE])
                      == Some(RawHeader(Some(h.version), Some(h.backupFile), Some(h.backupSize), Some(h.manifestFile),
                                        Some(h.manifestSize))))
      && (forall h: Header :: AutoName(h.backupFile) && h.manifestFile == ManifestName(h.backupFile)
                      && 1 <= h.backupSize <= MAX_BACKUP_BYTES && 1 <= h.manifestSize <= MAX_MANIFEST_BYTES
                      ==> |encode(h)| < MAX_HEADER_BYTES)
    }
  }

  // ---------- Names ----------

  predicate Digits(s: string) {
    forall i :: 0 <= i < |s| ==> '0' <= s[i] <= '9'
  }

  /** payment-auto-YYYYMMDDTHHMMSSZ.sqlite3 */
  predicate AutoName(s: string) {
    && |s| == 37 && s[..13] == "payment-auto-" && Digits(s[13..21]) && s[21] == 'T' && Digits(s[22..28])
    && s[28..] == "Z.sqlite3"
  }

  function ManifestName(backupFile: string): string {
    backupFile + ".manifest.json"
  }

  // ---------- Writing ----------

  /** A backup pair in the sender's directory. */
  datatype Pair = Pair(name: string, manifestName: string, database: seq<Byte>, manifest: seq<Byte>)

  predicate Sendable(o: Outside, p: Pair) {
    && AutoName(p.name) && p.manifestName == ManifestName(p.name) && |p.manifest| <= MAX_MANIFEST_BYTES
    && o.parse(p.manifest) == Some(Manifest(p.name, |p.database|)) && o.drill(p.database, p.manifest)
  }

  function HeaderOf(p: Pair): Header {
    Header(PROTOCOL_VERSION, p.name, |p.database|, p.manifestName, |p.manifest|)
  }

  function Written(o: Outside, p: Pair): seq<Byte> {
    o.encode(HeaderOf(p)) + [NEWLINE] + p.manifest + p.database
  }

  /** Write a pair to an output that takes blocks one after another. */
  method WriteTransferStream(o: Outside, p: Pair) returns (r: Result<Header, TransferError>, output: seq<Byte>)
    ensures if Sendable(o, p) then r == Ok(HeaderOf(p)) && output == Written(o, p) else r.Err? && output == []
  {
    output := [];
    if !AutoName(p.name) {
      return Err(BadBackupName), output;
    }
    if p.manifestName != ManifestName(p.name) {
      return Err(NameMismatch), output;
    }
    if |p.manifest| > MAX_MANIFEST_BYTES {
      return Err(SizeOutOfRange), output;
    }
    var manifest := o.parse(p.manifest);
    if manifest.None? {
      return Err(ManifestInvalid), output;
    }
    if manifest.value.backupFile != p.name || manifest.value.sizeBytes != |p.database| {
      return Err(ManifestMismatch), output;
    }
    if !o.drill(p.database, p.manifest) {
      return Err(DrillFailed), output;
    }
    output := o.encode(HeaderOf(p)) + [NEWLINE];
    output := CopyFile(p.manifest, output);
    output := CopyFile(p.database, output);
    return Ok(HeaderOf(p)), output;
  }

  method CopyFile(file: seq<Byte>, output: seq<Byte>) returns (r: seq<Byte>)
    ensures r == output + file
  {
    r := output;
    var at := 0;
    while at < |file|
      invariant 0 <= at <= |file| && r == output + file[..at]
    {
      var end := if at + COPY_CHUNK_BYTES < |file| then at + COPY_CHUNK_BYTES else |file|;
      assert file[..end] == file[..at] + file[at..end];
      r := r + file[at..end];
      at := end;
    }
    assert file[..at] == file;
  }

  // ---------- Reading ----------

  function NewlineAt(data: seq<Byte>): (n: nat)
    ensures n <= |data| && (n < |data| ==> data[n] == NEWLINE)
    ensures forall i :: 0 <= i < n ==> data[i] != NEWLINE
  {
    if data == [] || data[0] == NEWLINE then 0 else 1 + NewlineAt(data[1..])
  }

  /** The bytes `readline(limit)` takes: through the first newline, or to the limit, or to the end. */
  function Line(data: seq<Byte>, limit: nat): seq<Byte> {
    var n := NewlineAt(data);
    var end := if n < |data| then n + 1 else n;
    data[..if end <= limit then end else limit]
  }

  function CheckHeader(o: Outside, raw: seq<Byte>): Result<Header, TransferError> {
    if raw == [] || raw[|raw| - 1] != NEWLINE then Err(HeaderMissing)
    else if |raw| > MAX_HEADER_BYTES then Err(HeaderTooLong)
    else
      var decoded := o.decode(raw);
      if decoded.None? then Err(HeaderInvalid)
      else
        var h := decoded.value;
        if h.version != Some(PROTOCOL_VERSION) then Err(UnsupportedProtocol)
        else if h.backupFile.None? || !AutoName(h.backupFile.value) then Err(BadBackupName)
        else if h.manifestFile != Some(ManifestName(h.backupFile.value)) then Err(NameMismatch)
        else if h.backupSize.None? || !(1 <= h.backupSize.value <= MAX_BACKUP_BYTES) then Err(SizeOutOfRange)
        else if h.manifestSize.None? || !(1 <= h.manifestSize.value <= MAX_MANIFEST_BYTES) then Err(SizeOutOfRange)
        else Ok(Header(PROTOCOL_VERSION, h.backupFile.value, h.backupSize.value, h.manifestFile.value,
                       h.manifestSize.value))
  }

  /** The pair a stream carries, or why it is refused, `files` being what the destination already holds. */
  function Received(o: Outside, files: map<string, seq<Byte>>, data: seq<Byte>): Result<Pair, TransferError> {
    var line := Line(data, MAX_HEADER_BYTES + 1);
    match CheckHeader(o, line)
    case Err(e) => Err(e)
    case Ok(h) =>
      var rest := data[|line|..];
      if h.backupFile in files || h.manifestFile in files then Err(AlreadyExists)
      else if |rest| < h.manifestSize then Err(Truncated)
      else
        var manifest := rest[..h.manifestSize];
        var parsed := o.parse(manifest);
        if parsed.None? then Err(ManifestInvalid)
        else if parsed.value != Manifest(h.backupFile, h.backupSize) then Err(ManifestMismatch)
        else if |rest| < h.manifestSize + h.backupSize then Err(Truncated)
        else if |rest| > h.manifestSize + h.backupSize then Err(TrailingData)
        else if !o.drill(rest[h.manifestSize..], manifest) then Err(DrillFailed)
        else Ok(Pair(h.backupFile, h.manifestFile, rest[h.manifestSize..], manifest))
  }

  /** A byte stream that hands out what it holds in blocks of its own choosing. */
  class Stream {
    var data: seq<Byte>

    constructor (bytes: seq<Byte>)
      ensures data == bytes
    {
      data := bytes;
    }

    /** Some bytes, at most `n`; none only at the end. */
    method Read(n: nat) returns (block: seq<Byte>)
      modifies this
      ensures |block| <= n && old(data) == block + data
      ensures block == [] <==> n == 0 || old(data) == []
    {
      var most := if n <= |data| then n else |data|;
      var k: nat :| k <= most && (k == 0 <==> most == 0);
      block := data[..k];
      data := data[k..];
    }

    method ReadLine(limit: nat) returns (line: seq<Byte>)
      modifies this
      ensures line == Line(old(data), limit) && old(data) == line + data
    {
      line := Line(data, limit);
      data := data[|line|..];
    }
  }

  /** Copy exactly `size` bytes out of a stream, block by block. */
  method CopyExact(stream: Stream, size: nat) returns (r: Result<seq<Byte>, TransferError>)
    modifies stream
    ensures if |old(stream.data)| < size then r == Err(Truncated)
            else r == Ok(old(stream.data)[..size]) && stream.data == old(stream.data)[size..]
  {
    var remaining, output := size, [];
    while remaining > 0
      invariant 0 <= remaining <= size && |output| == size - remaining
      invariant output + stream.data == old(stream.data)
      decreases remaining
    {
      var block := stream.Read(if remaining < COPY_CHUNK_BYTES then remaining else COPY_CHUNK_BYTES);
      if block == [] {
        return Err(Truncated);
      }
      output := output + block;
      remaining := remaining - |block|;
    }
    assert old(stream.data)[..size] == output && old(stream.data)[size..] == stream.data;
    return Ok(output);
  }

  /** The receiver's destination directory. */
  class Destination {
    var files: map<string, seq<Byte>>

    constructor ()
      ensures files == map[]
    {
      files := map[];
    }

    /** Both files appear, or neither does. */
    method LinkPair(p: Pair) returns (ok: bool)
      modifies this
      ensures ok <==> p.name !in old(files) && p.manifestName !in old(files) && p.name != p.manifestName
      ensures files == if ok then old(files)[p.name := p.database][p.manifestName := p.manifest] else old(files)
    {
      var before := files;
      if p.name in files {
        return false;
      }
      files := files[p.name := p.database];
      if p.manifestName in files {
        files := before;
        return false;
      }
      files := files[p.manifestName := p.manifest];
      return true;
    }

    /** However the stream hands out its bytes, the result depends only on the bytes, and a refused transfer
        leaves the directory as it was. */
    method ReceiveStream(o: Outside, stream: Stream) returns (r: Result<Pair, TransferError>)
      modifies this, stream
      ensures r == Received(o, old(files), old(stream.data))
      ensures files == if r.Ok? then old(files)[r.value.name := r.value.database][r.value.manifestName := r.value.manifest]
                       else old(files)
    {
      ghost var data := stream.data;
      var line := stream.ReadLine(MAX_HEADER_BYTES + 1);
      assert stream.data == data[|line|..];
      var header := CheckHeader(o, line);
      if header.Err? {
        return Err(header.error);
      }
      var h := header.value;
      if h.backupFile in files || h.manifestFile in files {
        return Err(AlreadyExists);
      }
      var manifest := CopyExact(stream, h.manifestSize);
      if manifest.Err? {
        return Err(Truncated);
      }
      var parsed := o.parse(manifest.value);
      if parsed.None? {
        return Err(ManifestInvalid);
      }
      if parsed.value.backupFile != h.backupFile || parsed.value.sizeBytes != h.backupSize {
        return Err(ManifestMismatch);
      }
      ghost var body := stream.data;
      var database := CopyExact(stream, h.backupSize);
      if database.Err? {
        return Err(Truncated);
      }
      var extra := stream.Read(1);
      if extra != [] {
        return Err(TrailingData);
      }
      assert database.value == body;
      if !o.drill(database.value, manifest.value) {
        return Err(DrillFailed);
      }
      var p := Pair(h.backupFile, h.manifestFile, database.value, manifest.value);
      var linked := LinkPair(p);
      assert linked;
      return Ok(p);
    }
  }

  // ---------- Round trip ----------

  lemma {:induction false} NewlineAfter(text: seq<Byte>, rest: seq<Byte>)
    requires NEWLINE !in text
    ensures NewlineAt(text + [NEWLINE] + rest) == |text|
    decreases |text|
  {
    var data := text + [NEWLINE] + rest;
    if text != [] {
      assert data[1..] == text[1..] + [NEWLINE] + rest;
      assert text[0] in text;
      NewlineAfter(text[1..], rest);
    }
  }

  predicate InRange(p: Pair) {
    1 <= |p.database| <= MAX_BACKUP_BYTES && 1 <= |p.manifest| <= MAX_MANIFEST_BYTES
  }

  /** The header line of a written stream reads back as its header, if its sizes are in range. */
  lemma HeaderReadsBack(o: Outside, p: Pair)
    requires o.Faithful() && Sendable(o, p)
    ensures var line := Line(Written(o, p), MAX_HEADER_BYTES + 1);
      if InRange(p) then
        line == o.encode(HeaderOf(p)) + [NEWLINE] && CheckHeader(o, line) == Ok(HeaderOf(p))
      else CheckHeader(o, line).Err?
  {
    var text := o.encode(HeaderOf(p));
    var data := Written(o, p);
    assert data == text + [NEWLINE] + (p.manifest + p.database);
    NewlineAfter(text, p.manifest + p.database);
    var line := Line(data, MAX_HEADER_BYTES + 1);
    if |text| <= MAX_HEADER_BYTES {
      assert line == text + [NEWLINE];
    } else {
      assert line == text[..MAX_HEADER_BYTES + 1];
      assert line[|line| - 1] in text;
    }
  }

  /** A pair is sent exactly if it is named properly, its manifest has at most 128 KiB and describes the database, and
      the restore drill passes. */
  lemma SendableMeaning(o: Outside, p: Pair)
    ensures Sendable(o, p) <==>
              && AutoName(p.name) && p.manifestName == p.name + ".manifest.json" && |p.manifest| <= 131072
              && o.parse(p.manifest).Some? && o.parse(p.manifest).value.backupFile == p.name
              && o.parse(p.manifest).value.sizeBytes == |p.database| && o.drill(p.database, p.manifest)
  {
  }

  /** What the sender writes, the receiver reads back byte for byte, exactly when the sizes are within the
      receiver's bounds and the names are free. The sender checks neither an upper bound on the database
      nor that it is not empty. */
  lemma RoundTrip(o: Outside, files: map<string, seq<Byte>>, p: Pair)
    requires o.Faithful() && Sendable(o, p)
    ensures Received(o, files, Written(o, p)).Ok? <==> InRange(p) && p.name !in files && p.manifestName !in files
    ensures Received(o, files, Written(o, p)).Ok? ==> Received(o, files, Written(o, p)) == Ok(p)
  {
    HeaderReadsBack(o, p);
    if InRange(p) {
      BodyReadsBack(o, p);
    }
  }

  lemma BodyReadsBack(o: Outside, p: Pair)
    ensures var rest := Written(o, p)[|o.encode(HeaderOf(p))| + 1..];
      && |rest| == |p.manifest| + |p.database|
      && rest[..|p.manifest|] == p.manifest && rest[|p.manifest|..] == p.database
  {
    var text := o.encode(HeaderOf(p)) + [NEWLINE];
    assert Written(o, p) == text + (p.manifest + p.database);
    assert Written(o, p)[|text|..] == p.manifest + p.database;
  }

  /** The header line names the pair, gives its sizes and says version 1. */
  predicate Declares(o: Outside, line: seq<Byte>, p: Pair) {
    && o.decode(line).Some?
    && var h := o.decode(line).value;
       && h.version == Some(1) && h.backupFile == Some(p.name) && h.manifestFile == Some(p.manifestName)
       && h.backupSize == Some(|p.database|) && h.manifestSize == Some(|p.manifest|)
  }

  /** A pair's sizes are in range from one byte to 8 GiB of database and 128 KiB of manifest. */
  lemma RangeMeaning(p: Pair)
    ensures InRange(p) <==> 1 <= |p.database| <= 8589934592 && 1 <= |p.manifest| <= 131072
  {
  }

  /** A backup is named after its date and time. */
  lemma NameMeaning(s: string)
    ensures AutoName(s) <==>
              exists day, time :: |day| == 8 && |time| == 6 && Digits(day) && Digits(time)
                                  && s == "payment-auto-" + day + "T" + time + "Z.sqlite3"
  {
    if AutoName(s) {
      var day, time := s[13..21], s[22..28];
      assert s == s[..13] + day + [s[21]] + time + s[28..];
    }
    if day, time :| |day| == 8 && |time| == 6 && Digits(day) && Digits(time)
                    && s == "payment-auto-" + day + "T" + time + "Z.sqlite3" {
      var a, b := "payment-auto-" + day, "payment-auto-" + day + "T";
      assert |a| == 21 && |b| == 22 && |b + time| == 28;
      assert s[..13] == "payment-auto-" && s[13..21] == day && s[21] == 'T' && s[22..28] == time && s[28..] == "Z.sqlite3";
    }
  }

  /** Whatever was accepted, the stored files are the stream itself, cut after the header line and after
      the manifest. */
  lemma AcceptedIsStored(o: Outside, files: map<string, seq<Byte>>, data: seq<Byte>)
    requires Received(o, files, data).Ok?
    ensures var p := Received(o, files, data).value;
      && data == Line(data, MAX_HEADER_BYTES + 1) + p.manifest + p.database
      && |Line(data, MAX_HEADER_BYTES + 1)| <= 4096 && Declares(o, Line(data, MAX_HEADER_BYTES + 1), p)
      && AutoName(p.name) && p.manifestName == p.name + ".manifest.json" && InRange(p)
      && o.parse(p.manifest) == Some(Manifest(p.name, |p.database|)) && o.drill(p.database, p.manifest)
  {
    var line := Line(data, MAX_HEADER_BYTES + 1);
    var h := CheckHeader(o, line).value;
    var rest := data[|line|..];
    assert data == line + rest && rest == rest[..h.manifestSize] + rest[h.manifestSize..];
    assert data == line + rest[..h.manifestSize] + rest[h.manifestSize..];
  }

  /** The line is a header that declares the pair, of proper names and sizes. */
  predicate Heads(o: Outside, line: seq<Byte>, p: Pair) {
    && line != [] && line[|line| - 1] == 10 && |line| <= 4096 && Declares(o, line, p)
    && AutoName(p.name) && p.manifestName == p.name + ".manifest.json" && InRange(p)
  }

  lemma HeadsIsAccepted(o: Outside, line: seq<Byte>, p: Pair)
    ensures Heads(o, line, p) <==> AutoName(p.name) && CheckHeader(o, line) == Ok(HeaderOf(p)) && InRange(p)
  {
  }

  lemma HeadedIsReceived(o: Outside, files: map<string, seq<Byte>>, data: seq<Byte>, p: Pair)
    requires CheckHeader(o, Line(data, MAX_HEADER_BYTES + 1)) == Ok(HeaderOf(p))
    requires data == Line(data, MAX_HEADER_BYTES + 1) + p.manifest + p.database
    requires p.name !in files && p.manifestName !in files
    requires o.parse(p.manifest) == Some(Manifest(p.name, |p.database|)) && o.drill(p.database, p.manifest)
    ensures Received(o, files, data) == Ok(p)
  {
    var line := Line(data, MAX_HEADER_BYTES + 1);
    assert data[|line|..] == p.manifest + p.database;
    assert (p.manifest + p.database)[..|p.manifest|] == p.manifest;
    assert (p.manifest + p.database)[|p.manifest|..] == p.database;
  }

  lemma ReceivedIsHeaded(o: Outside, files: map<string, seq<Byte>>, data: seq<Byte>)
    requires Received(o, files, data).Ok?
    ensures var p := Received(o, files, data).value;
      p.name !in files && p.manifestName !in files && CheckHeader(o, Line(data, MAX_HEADER_BYTES + 1)) == Ok(HeaderOf(p))
  {
  }

  /** A transfer is accepted as a pair exactly when its stream is a header line that declares the pair, then the
      manifest and the database byte for byte; names and sizes are proper, neither file exists yet, the manifest
      describes the database, and the restore drill passes. */
  lemma AcceptedExactly(o: Outside, files: map<string, seq<Byte>>, data: seq<Byte>, p: Pair)
    ensures Received(o, files, data) == Ok(p) <==>
              && Heads(o, Line(data, MAX_HEADER_BYTES + 1), p) && data == Line(data, MAX_HEADER_BYTES + 1) + p.manifest + p.database
              && p.name !in files && p.manifestName !in files
              && o.parse(p.manifest) == Some(Manifest(p.name, |p.database|)) && o.drill(p.database, p.manifest)
  {
    HeadsIsAccepted(o, Line(data, MAX_HEADER_BYTES + 1), p);
    if Received(o, files, data) == Ok(p) {
      ReceivedIsHeaded(o, files, data);
      AcceptedIsStored(o, files, data);
    } else if Heads(o, Line(data, MAX_HEADER_BYTES + 1), p) && data == Line(data, MAX_HEADER_BYTES + 1) + p.manifest + p.database
              && p.name !in files && p.manifestName !in files
              && o.parse(p.manifest) == Some(Manifest(p.name, |p.database|)) && o.drill(p.database, p.manifest) {
      HeadedIsReceived(o, files, data, p);
    }
  }

  // ---------- Nothing shorter, nothing longer ----------

  lemma {:induction false} NewlineInPrefix(a: seq<Byte>, b: seq<Byte>)
    requires a <= b
    ensures NewlineAt(a) < |a| ==> NewlineAt(b) == NewlineAt(a)
    ensures NewlineAt(a) == |a| ==> NewlineAt(b) >= |a|
    decreases |a|
  {
    if a != [] {
      assert a[1..] <= b[1..];
      NewlineInPrefix(a[1..], b[1..]);
    }
  }

  /** A prefix that still holds the header line has the same line; a shorter one has none. */
  lemma LineOfPrefix(o: Outside, a: seq<Byte>, b: seq<Byte>)
    requires a <= b && CheckHeader(o, Line(b, MAX_HEADER_BYTES + 1)).Ok?
    ensures var line := Line(b, MAX_HEADER_BYTES + 1);
      if |a| < |line| then CheckHeader(o, Line(a, MAX_HEADER_BYTES + 1)) == Err(HeaderMissing)
      else Line(a, MAX_HEADER_BYTES + 1) == line
  {
    NewlineInPrefix(a, b);
    var line, cut := Line(b, MAX_HEADER_BYTES + 1), Line(a, MAX_HEADER_BYTES + 1);
    assert line[|line| - 1] == b[|line| - 1] == NEWLINE;
    assert NewlineAt(b) == |line| - 1;
    if |a| < |line| {
      assert NewlineAt(a) == |a| && cut == a;
    } else {
      assert a[|line| - 1] == NEWLINE && NewlineAt(a) == |line| - 1;
    }
  }

  /** Every strict prefix of an accepted stream is refused as truncated, in its header or in its payload. */
  lemma PrefixRefused(o: Outside, files: map<string, seq<Byte>>, data: seq<Byte>, cut: nat)
    requires Received(o, files, data).Ok? && cut < |data|
    ensures Received(o, files, data[..cut]) ==
            Err(if cut < |Line(data, MAX_HEADER_BYTES + 1)| then HeaderMissing else Truncated)
  {
    LineOfPrefix(o, data[..cut], data);
    var line := Line(data, MAX_HEADER_BYTES + 1);
    if cut >= |line| {
      var h, rest := CheckHeader(o, line).value, data[..cut][|line|..];
      if |rest| >= h.manifestSize {
        assert rest[..h.manifestSize] == data[|line|..][..h.manifestSize];
      }
    }
  }

  /** Every strict extension of an accepted stream is refused for its trailing data. */
  lemma ExtensionRefused(o: Outside, files: map<string, seq<Byte>>, data: seq<Byte>, extra: seq<Byte>)
    requires Received(o, files, data).Ok? && extra != []
    ensures Received(o, files, data + extra) == Err(TrailingData)
  {
    var longer := data + extra;
    var line := Line(data, MAX_HEADER_BYTES + 1);
    LineOfExtension(o, data, longer);
    var h := CheckHeader(o, line).value;
    assert longer[|line|..] == data[|line|..] + extra;
    assert longer[|line|..][..h.manifestSize] == data[|line|..][..h.manifestSize];
  }

  lemma LineOfExtension(o: Outside, a: seq<Byte>, b: seq<Byte>)
    requires a <= b && CheckHeader(o, Line(a, MAX_HEADER_BYTES + 1)).Ok?
    ensures Line(b, MAX_HEADER_BYTES + 1) == Line(a, MAX_HEADER_BYTES + 1)
  {
    NewlineInPrefix(a, b);
    var line := Line(a, MAX_HEADER_BYTES + 1);
    assert line[|line| - 1] == a[|line| - 1] == NEWLINE;
    assert NewlineAt(a) == |line| - 1;
  }
}
