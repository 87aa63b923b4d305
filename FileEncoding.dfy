/**
 * The post-processing of FileReader results in filesToBase64: each file's
 * data URL (section 3 of RFC 2397, `data:[<mediatype>][;base64],<data>`) is cut
 * after its first "base64," and recorded with the file's name and MIME type.
 */
module FileEncoding {
  import opened Text

  /** What FileReader.readAsDataURL delivers for one file: its result, or an error event. */
  datatype ReadOutcome = Loaded(result: string) | ReadFailed

  /** A selected file: its name, its declared type ("" when the browser knows none) and how reading it ends. */
  datatype File = File(name: string, mimeType: string, read: ReadOutcome)

  /** One entry of the payload's `files` list. */
  datatype FileRecord = FileRecord(filename: string, mimeType: string, base64: string)

  /** The settled promise of filesToBase64: all records, or the index of the read that rejected it. */
  datatype Batch = Encoded(records: seq<FileRecord>) | Rejected(at: nat)

  const Marker: string := "base64,"
  const DefaultMimeType: string := "application/octet-stream"

  /** The text after the first "base64," of a data URL, or "" when it has none. */
  function Base64Payload(s: string): (r: string)
    ensures |r| <= |s| && r == s[|s| - |r|..]
    ensures (forall j :: 0 <= j <= |s| ==> !OccursAt(s, Marker, j)) ==> r == []
    ensures (exists j :: 0 <= j <= |s| && OccursAt(s, Marker, j)) ==>
              |Marker| <= |s| - |r| && OccursAt(s, Marker, |s| - |r| - |Marker|)
              && forall j :: 0 <= j < |s| - |r| - |Marker| ==> !OccursAt(s, Marker, j)
  {
    var idx := IndexOf(s, Marker);
    if idx >= 0 then s[idx + |Marker|..] else ""
  }

  /** A base64 data URL as RFC 2397 writes it. */
  function DataUrl(mediatype: string, data: string): string {
    "data:" + mediatype + ";base64," + data
  }

  /**
   * Cutting after the first "base64," gives back exactly the data part of a
   * base64 data URL whose media type holds no comma (the grammar of RFC 2397
   * ends the media type at the first comma).
   */
  lemma DataUrlRoundTrip(mediatype: string, data: string)
    requires forall k :: 0 <= k < |mediatype| ==> mediatype[k] != ','
    ensures Base64Payload(DataUrl(mediatype, data)) == data
  {
    var s := DataUrl(mediatype, data);
    var p := 5 + |mediatype| + 1;
    assert s[p..p + 7] == Marker;
    assert OccursAt(s, Marker, p);
    forall j | 0 <= j < p ensures !OccursAt(s, Marker, j) {
      if j + 7 <= |s| {
        var c := s[j + 6];
        if j + 6 < 5 + |mediatype| {
          assert c == mediatype[j + 6 - 5];
        } else {
          assert c == ";base64"[j + 6 - 5 - |mediatype|];
        }
        assert s[j..j + 7][6] == c != ',';
      }
    }
    assert IndexOf(s, Marker) == p;
    assert s[p + 7..] == data;
  }

  /**
   * The record pushed for one file that was read: its name, a type that is
   * never empty (the declared one, else the default), and the payload of its read.
   */
  function Record(f: File): (r: FileRecord)
    requires f.read.Loaded?
    ensures r.filename == f.name && r.mimeType != []
    ensures f.mimeType != [] ==> r.mimeType == f.mimeType
    ensures f.mimeType == [] ==> r.mimeType == DefaultMimeType
    ensures r.base64 == Base64Payload(f.read.result)
  {
    FileRecord(f.name, if f.mimeType == "" then DefaultMimeType else f.mimeType, Base64Payload(f.read.result))
  }

  /**
   * The outcome of filesToBase64: one record per file, in order, when every
   * read succeeds; otherwise the first read that fails rejects the whole batch.
   */
  function EncodeAll(files: seq<File>): (b: Batch)
    ensures b.Encoded? <==> forall k :: 0 <= k < |files| ==> files[k].read.Loaded?
    ensures b.Encoded? ==> |b.records| == |files|
    ensures b.Encoded? ==> forall k :: 0 <= k < |files| ==> b.records[k] == Record(files[k])
    ensures b.Rejected? ==> b.at < |files| && files[b.at].read.ReadFailed?
    ensures b.Rejected? ==> forall k :: 0 <= k < b.at ==> files[k].read.Loaded?
  {
    if files == [] then Encoded([])
    else if files[0].read.ReadFailed? then Rejected(0)
    else
      match EncodeAll(files[1..])
      case Encoded(rs) => Encoded([Record(files[0])] + rs)
      case Rejected(i) => Rejected(i + 1)
  }

  /**
   * filesToBase64: reads the files one at a time, each read awaited before the
   * next starts, and stops at the first failure. `started` counts the reads begun.
   */
  method FilesToBase64(files: seq<File>) returns (b: Batch, started: nat)
    ensures b == EncodeAll(files)
    ensures started == if b.Rejected? then b.at + 1 else |files|
  {
    var out: seq<FileRecord> := [];
    var i := 0;
    while i < |files|
      invariant 0 <= i <= |files|
      invariant forall k :: 0 <= k < i ==> files[k].read.Loaded?
      invariant |out| == i
      invariant forall k :: 0 <= k < i ==> out[k] == Record(files[k])
    {
      match files[i].read
      case ReadFailed =>
        b, started := Rejected(i), i + 1;
        var e := EncodeAll(files);
        assert e.Rejected? && e.at == i;
        return;
      case Loaded(_) =>
        out := out + [Record(files[i])];
      i := i + 1;
    }
    b, started := Encoded(out), |files|;
    assert EncodeAll(files).records == out;
  }
}
