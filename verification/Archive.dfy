/** Reading and unpacking a plugin archive under a byte limit. */
module Archive {
  import opened Text
  import opened FileSystem

  const U64_MAX: nat := 0xFFFF_FFFF_FFFF_FFFF

  function SaturatingAdd(a: nat, b: nat): nat {
    if a + b > U64_MAX then U64_MAX else a + b
  }

  // ----- The download -----

  /** One read of a stream: some bytes, or a failure. */
  datatype Part = Chunk(bytes: Bytes) | Failure

  function Total(parts: seq<Part>): nat {
    if parts == [] then 0
      else Total(parts[..|parts| - 1]) + (match parts[|parts| - 1] case Chunk(b) => |b| case Failure => 0)
  }

  function Content(parts: seq<Part>): (bytes: Bytes)
    ensures |bytes| == Total(parts)
  {
    if parts == [] then []
      else Content(parts[..|parts| - 1]) + (match parts[|parts| - 1] case Chunk(b) => b case Failure => [])
  }

  predicate NoFailure(parts: seq<Part>) {
    forall i :: 0 <= i < |parts| ==> parts[i].Chunk?
  }

  lemma {:induction false} TotalGrows(parts: seq<Part>, k: nat)
    requires k <= |parts|
    ensures Total(parts[..k]) <= Total(parts) && Content(parts[..k]) <= Content(parts)
  {
    if k < |parts| {
      TotalGrows(parts[..|parts| - 1], k);
      assert parts[..|parts| - 1][..k] == parts[..k];
    } else {
      assert parts[..k] == parts;
    }
  }

  lemma ContentNext(parts: seq<Part>, k: nat)
    requires k < |parts| && parts[k].Chunk?
    ensures Content(parts[..k + 1]) == Content(parts[..k]) + parts[k].bytes
    ensures Total(parts[..k + 1]) == Total(parts[..k]) + |parts[k].bytes|
  {
    assert parts[..k + 1][..k] == parts[..k];
  }

  method AppendChunkCapped(bytes: Bytes, chunk: Bytes, maxBytes: nat) returns (r: Option<Bytes>)
    requires maxBytes < U64_MAX && |bytes| <= U64_MAX
    ensures r == if |bytes| + |chunk| > maxBytes then None else Some(bytes + chunk)
  {
    if SaturatingAdd(|bytes|, |chunk|) > maxBytes { return None; }
    r := Some(bytes + chunk);
  }

  /** All chunks together, when none fails and they fit; otherwise nothing is read past the first that
      fails or does not fit. */
  method CollectCappedChunks(chunks: seq<Part>, maxBytes: nat) returns (r: Option<Bytes>, ghost pulled: nat)
    requires maxBytes < U64_MAX
    ensures r.Some? <==> NoFailure(chunks) && Total(chunks) <= maxBytes
    ensures r.Some? ==> r.value == Content(chunks) && pulled == |chunks|
    ensures r.None? ==> 0 < pulled <= |chunks|
    ensures r.None? ==> NoFailure(chunks[..pulled - 1]) && Total(chunks[..pulled - 1]) <= maxBytes
    ensures r.None? ==> chunks[pulled - 1].Failure? || Total(chunks[..pulled]) > maxBytes
  {
    var bytes: Bytes := [];
    for i := 0 to |chunks|
      invariant NoFailure(chunks[..i]) && bytes == Content(chunks[..i]) && |bytes| <= maxBytes
    {
      if chunks[i].Failure? { return None, i + 1; }
      ContentNext(chunks, i);
      var more := AppendChunkCapped(bytes, chunks[i].bytes, maxBytes);
      if more.None? {
        TotalGrows(chunks, i + 1);
        return None, i + 1;
      }
      bytes := more.value;
      assert forall j :: 0 <= j < i + 1 ==> chunks[..i + 1][j] == chunks[j];
      assert forall j :: 0 <= j < i ==> chunks[..i][j] == chunks[j];
    }
    assert chunks[..|chunks|] == chunks;
    r, pulled := Some(bytes), |chunks|;
  }

  // ----- The extraction -----

  /** An archive entry: its place below the destination (none when the name is unsafe), the size it claims,
      and what reading it gives. */
  datatype Entry = Entry(name: Option<Path>, isDir: bool, size: nat, parts: seq<Part>)

  predicate WellRead(e: Entry) {
    e.size <= U64_MAX && forall i :: 0 <= i < |e.parts| ==> e.parts[i].Chunk? ==> e.parts[i].bytes != []
  }

  /** All bytes of the files in the archive. */
  function Written(entries: seq<Entry>): nat {
    if entries == [] then 0 else
    var e := entries[|entries| - 1];
    Written(entries[..|entries| - 1]) + if e.isDir then 0 else Total(e.parts)
  }

  /** The archive can be unpacked: names are safe, nothing fails, and all fits, what is claimed and what is read. */
  predicate Fits(entries: seq<Entry>, limit: nat, blocked: set<nat>) {
    forall i :: 0 <= i < |entries| ==> EntryFits(entries, i, limit, blocked)
  }

  predicate EntryFits(entries: seq<Entry>, i: nat, limit: nat, blocked: set<nat>)
    requires i < |entries|
  {
    var e := entries[i];
    e.name.Some? && i !in blocked &&
    (e.isDir || (Written(entries[..i]) + e.size <= limit && NoFailure(e.parts) && Written(entries[..i + 1]) <= limit))
  }

  /** The place that a file is unpacked to, and the bytes written so far to all of them. */
  class Destination {
    var files: map<Path, Bytes>
    ghost var written: nat

    constructor ()
      ensures files == map[] && written == 0
    {
      files, written := map[], 0;
    }

    method Create(p: Path)
      modifies this
      ensures files == old(files)[p := []] && written == old(written)
    {
      files := files[p := []];
    }

    method WriteAll(p: Path, bytes: Bytes)
      requires p in files
      modifies this
      ensures files == old(files)[p := old(files)[p] + bytes] && written == old(written) + |bytes|
    {
      files, written := files[p := files[p] + bytes], written + |bytes|;
    }
  }

  lemma WrittenNext(entries: seq<Entry>, i: nat)
    requires i < |entries|
    ensures Written(entries[..i + 1]) == Written(entries[..i]) + if entries[i].isDir then 0 else Total(entries[i].parts)
  {
    assert entries[..i + 1][..i] == entries[..i];
  }

  /** Copies one entry; `extracted` counts what is written, and does not pass the limit. */
  method CopyZipEntryCapped(e: Entry, out: Destination, p: Path, before: nat, limit: nat)
    returns (ok: bool, extracted: nat)
    requires WellRead(e) && p in out.files && out.files[p] == [] && before <= limit < U64_MAX
    modifies out
    ensures extracted <= limit && out.written - old(out.written) == extracted - before
    ensures ok <==> NoFailure(e.parts) && before + Total(e.parts) <= limit
    ensures ok ==> out.files == old(out.files)[p := Content(e.parts)] && extracted == before + Total(e.parts)
    ensures !ok ==> exists k :: 0 <= k < |e.parts| && out.files == old(out.files)[p := Content(e.parts[..k])]
  {
    extracted := before;
    for i := 0 to |e.parts|
      invariant NoFailure(e.parts[..i]) && extracted == before + Total(e.parts[..i]) <= limit
      invariant out.files == old(out.files)[p := Content(e.parts[..i])]
      invariant out.written - old(out.written) == extracted - before
    {
      if e.parts[i].Failure? { return false, extracted; }
      var bytes := e.parts[i].bytes;
      ContentNext(e.parts, i);
      if SaturatingAdd(extracted, |bytes|) > limit {
        TotalGrows(e.parts, i + 1);
        return false, extracted;
      }
      out.WriteAll(p, bytes);
      extracted := extracted + |bytes|;
      NoFailureNext(e.parts, i);
    }
    assert e.parts[..|e.parts|] == e.parts;
    ok := true;
  }

  lemma NoFailureNext(parts: seq<Part>, i: nat)
    requires i < |parts| && NoFailure(parts[..i]) && parts[i].Chunk?
    ensures NoFailure(parts[..i + 1])
  {
    assert parts[..i + 1] == parts[..i] + [parts[i]];
  }

  /** The file at `p` is the last entry of that name. */
  ghost predicate LastOf(entries: seq<Entry>, p: Path, i: int) {
    && 0 <= i < |entries| && entries[i].name == Some(p) && !entries[i].isDir
    && forall j :: i < j < |entries| ==> entries[j].isDir || entries[j].name != Some(p)
  }

  /** Exactly the files of the archive are there, each with all its bytes. */
  ghost predicate Unpacked(files: map<Path, Bytes>, entries: seq<Entry>) {
    && (forall p, i :: LastOf(entries, p, i) ==> p in files && files[p] == Content(entries[i].parts))
    && (forall p :: p in files ==> exists i :: LastOf(entries, p, i))
  }

  lemma LastOfFile(entries: seq<Entry>, e: Entry, p: Path, q: Path, i: int)
    requires e.name == Some(p) && !e.isDir
    ensures LastOf(entries + [e], q, i) <==> if q == p then i == |entries| else LastOf(entries, q, i)
  {
    var more := entries + [e];
    assert more[|entries|] == e && forall j :: 0 <= j < |entries| ==> more[j] == entries[j];
    if LastOf(more, q, i) && i < |entries| {
      assert more[|entries|].isDir || more[|entries|].name != Some(q);
      forall j | i < j < |entries|
        ensures entries[j].isDir || entries[j].name != Some(q)
      {
        assert more[j] == entries[j];
      }
    }
  }

  lemma LastOfDir(entries: seq<Entry>, e: Entry, q: Path, i: int)
    requires e.isDir
    ensures LastOf(entries + [e], q, i) <==> LastOf(entries, q, i)
  {
    var more := entries + [e];
    assert more[|entries|] == e && forall j :: 0 <= j < |entries| ==> more[j] == entries[j];
    if LastOf(more, q, i) {
      forall j | i < j < |entries|
        ensures entries[j].isDir || entries[j].name != Some(q)
      {
        assert more[j] == entries[j];
      }
    }
  }

  lemma UnpackedFile(files: map<Path, Bytes>, entries: seq<Entry>, e: Entry, p: Path)
    requires Unpacked(files, entries) && e.name == Some(p) && !e.isDir
    ensures Unpacked(files[p := Content(e.parts)], entries + [e])
  {
    var more, out := entries + [e], files[p := Content(e.parts)];
    forall q, i | LastOf(more, q, i)
      ensures q in out && out[q] == Content(more[i].parts)
    {
      LastOfFile(entries, e, p, q, i);
    }
    forall q | q in out ensures exists i :: LastOf(more, q, i) {
      if q == p {
        LastOfFile(entries, e, p, p, |entries|);
      } else {
        var i :| LastOf(entries, q, i);
        LastOfFile(entries, e, p, q, i);
      }
    }
  }

  lemma UnpackedDir(files: map<Path, Bytes>, entries: seq<Entry>, e: Entry)
    requires Unpacked(files, entries) && e.isDir
    ensures Unpacked(files, entries + [e])
  {
    var more := entries + [e];
    forall q, i | LastOf(more, q, i)
      ensures q in files && files[q] == Content(more[i].parts)
    {
      LastOfDir(entries, e, q, i);
    }
    forall q | q in files ensures exists i :: LastOf(more, q, i) {
      var i :| LastOf(entries, q, i);
      LastOfDir(entries, e, q, i);
    }
  }

  lemma UnpackedNone()
    ensures Unpacked(map[], [])
  {
  }

  /** Unpacks the archive. `blocked` are the entries whose directory or file cannot be made. */
  method ExtractZipSafe(entries: seq<Entry>, out: Destination, limit: nat, blocked: set<nat>)
    returns (ok: bool, extracted: nat)
    requires out.files == map[] && out.written == 0 && limit < U64_MAX
    requires forall i :: 0 <= i < |entries| ==> WellRead(entries[i])
    modifies out
    ensures extracted == out.written <= limit
    ensures ok <==> Fits(entries, limit, blocked)
    ensures ok ==> Unpacked(out.files, entries) && extracted == Written(entries)
  {
    hide Written, EntryFits, WellRead, Unpacked;
    extracted := 0;
    WrittenNone(entries);
    UnpackedNone();
    assert entries[..0] == [];
    for i := 0 to |entries|
      invariant extracted == out.written == Written(entries[..i]) <= limit
      invariant forall j :: 0 <= j < i ==> EntryFits(entries, j, limit, blocked)
      invariant Unpacked(out.files, entries[..i])
    {
      var file := entries[i];
      WrittenNext(entries, i);
      FitsIs(entries, i, limit, blocked);
      assert entries[..i + 1] == entries[..i] + [file];
      if file.name.None? { return false, extracted; }
      var p := file.name.value;
      if file.isDir {
        if i in blocked { return false, extracted; }
        UnpackedDir(out.files, entries[..i], file);
        continue;
      }
      SizeFits(file);
      if SaturatingAdd(extracted, file.size) > limit { return false, extracted; }
      if i in blocked { return false, extracted; }
      UnpackedFile(out.files, entries[..i], file, p);
      ghost var files := out.files;
      out.Create(p);
      ok, extracted := CopyZipEntryCapped(file, out, p, extracted, limit);
      if !ok { return; }
      assert out.files == files[p := Content(file.parts)];
    }
    assert entries[..|entries|] == entries;
    ok := true;
  }

  lemma SizeFits(e: Entry)
    requires WellRead(e)
    ensures e.size <= U64_MAX
  {
  }

  lemma WrittenNone(entries: seq<Entry>)
    ensures Written(entries[..0]) == 0
  {
  }

  lemma FitsIs(entries: seq<Entry>, i: nat, limit: nat, blocked: set<nat>)
    requires i < |entries|
    ensures var e := entries[i];
            EntryFits(entries, i, limit, blocked) <==>
            e.name.Some? && i !in blocked &&
            (e.isDir || (Written(entries[..i]) + e.size <= limit && NoFailure(e.parts)
              && Written(entries[..i]) + Total(e.parts) <= limit))
  {
    WrittenNext(entries, i);
  }
}
