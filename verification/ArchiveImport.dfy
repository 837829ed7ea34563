/**
  Reading a download and unpacking a configuration archive under size limits. A stream is the
  sequence of chunks it yields, in any chunking, and then ends or raises.
 */
module ArchiveImport {
  import opened Prelude

  newtype Byte = x: int | 0 <= x < 256

  type Bytes = seq<Byte>

  const CHUNK_SIZE: nat := 64 * 1024
  const MAX_DOWNLOAD_BYTES: nat := 64 * 1024 * 1024
  const MAX_EXTRACTED_BYTES: nat := 256 * 1024 * 1024
  const MAX_ENTRIES: nat := 20000

  /** `raises`: the read after the last chunk raises instead of reporting the end. */
  datatype Stream = Stream(chunks: seq<Bytes>, raises: bool)

  /** No read gives more than it was asked for, and none but the last gives nothing. */
  predicate IsStream(s: Stream) {
    forall i | 0 <= i < |s.chunks| :: 0 < |s.chunks[i]| <= CHUNK_SIZE
  }

  function Joined(chunks: seq<Bytes>): Bytes {
    if chunks == [] then [] else Joined(chunks[..|chunks| - 1]) + Last(chunks)
  }

  /** Chunks are joined in the order in which they are read. */
  lemma {:induction false} JoinedInOrder(a: seq<Bytes>, b: seq<Bytes>, chunk: Bytes)
    ensures Joined(a + b) == Joined(a) + Joined(b)
    ensures Joined([chunk]) == chunk
    decreases |b|
  {
    assert [chunk][..0] == [];
    if b == [] {
      assert a + b == a;
    } else {
      assert (a + b)[..|a + b| - 1] == a + b[..|b| - 1];
      JoinedInOrder(a, b[..|b| - 1], chunk);
    }
  }

  lemma {:induction false} JoinedMonotone(chunks: seq<Bytes>, n: nat)
    requires n <= |chunks|
    ensures |Joined(chunks[..n])| <= |Joined(chunks)|
    decreases |chunks| - n
  {
    if n == |chunks| {
      assert chunks[..n] == chunks;
    } else {
      assert chunks[..n + 1][..n] == chunks[..n] && Last(chunks[..n + 1]) == chunks[n];
      JoinedMonotone(chunks, n + 1);
    }
  }

  // ----- The download -----

  /**
    The whole body or nothing: a declared length over the limit, a read that raises, or a body
    over the limit ends in an error. Never more than one chunk over the limit is read.
   */
  method ReadLimited(declared: Option<nat>, body: Stream) returns (r: Option<Bytes>, read: nat)
    requires IsStream(body)
    ensures r.Some? <==> (declared.Some? ==> declared.value <= 67_108_864)
                         && !body.raises && |Joined(body.chunks)| <= 67_108_864
    ensures r.Some? ==> r.value == Joined(body.chunks)
    ensures read <= 67_108_864 + 65_536
  {
    read := 0;
    if declared.Some? && declared.value > MAX_DOWNLOAD_BYTES {
      return None, read;
    }
    var content: Bytes := [];
    assert body.chunks[..0] == [];
    for k := 0 to |body.chunks|
      invariant content == Joined(body.chunks[..k]) && read == |content| <= MAX_DOWNLOAD_BYTES
    {
      assert body.chunks[..k + 1][..k] == body.chunks[..k];
      read := read + |body.chunks[k]|;
      if read > MAX_DOWNLOAD_BYTES {
        JoinedMonotone(body.chunks, k + 1);
        return None, read;
      }
      content := content + body.chunks[k];
    }
    assert body.chunks[..|body.chunks|] == body.chunks;
    r := if body.raises then None else Some(content);
  }

  // ----- Names -----

  /** `safe` is what the path check answers, `opens` whether the output file can be opened. */
  datatype Entry = Entry(fileName: string, content: Stream, safe: bool, opens: bool)

  function BaseName(path: string): string {
    if path == "" || Last(path) == '/' then "" else BaseName(path[..|path| - 1]) + [Last(path)]
  }

  predicate EndsWith(s: string, suffix: string) {
    |suffix| <= |s| && s[|s| - |suffix|..] == suffix
  }

  predicate IsConfigName(name: string) {
    EndsWith(Lower(name), ".ovpn") || EndsWith(Lower(name), ".ovpn\n")
  }

  predicate IsAlphanumeric(c: char) {
    'a' <= c <= 'z' || 'A' <= c <= 'Z' || '0' <= c <= '9'
  }

  predicate MarkAt(lowered: string, i: nat, mark: string)
    requires i <= |lowered|
  {
    mark <= lowered[i..] && (i + |mark| == |lowered| || !IsAlphanumeric(lowered[i + |mark|]))
  }

  predicate IsCertName(name: string) {
    var l := Lower(name);
    exists i | 0 <= i <= |l| :: MarkAt(l, i, ".crt") || MarkAt(l, i, ".pem") || MarkAt(l, i, ".ca") || MarkAt(l, i, "cert")
  }

  function Where(infos: seq<Entry>, keep: Entry -> bool): seq<Entry> {
    if infos == [] then []
    else Where(infos[..|infos| - 1], keep) + if keep(Last(infos)) then [Last(infos)] else []
  }

  /** Configurations first, then certificates; an entry can be in both lists. */
  function Targets(infos: seq<Entry>): seq<Entry> {
    Where(infos, (e: Entry) => IsConfigName(e.fileName)) + Where(infos, (e: Entry) => IsCertName(e.fileName))
  }

  // ----- What the extraction does -----

  predicate FirstOfItsName(ts: seq<Entry>, i: nat)
    requires i < |ts|
  {
    BaseName(ts[i].fileName) != "" && forall j | 0 <= j < i :: BaseName(ts[j].fileName) != BaseName(ts[i].fileName)
  }

  /** An output file is opened for entry `i`. */
  predicate Opened(ts: seq<Entry>, i: nat)
    requires i < |ts|
  {
    FirstOfItsName(ts, i) && ts[i].safe && ts[i].opens
  }

  predicate Extracted(ts: seq<Entry>, i: nat)
    requires i < |ts|
  {
    Opened(ts, i) && !ts[i].content.raises
  }

  function Size(e: Entry): nat {
    |Joined(e.content.chunks)|
  }

  /** Bytes written for the first `n` targets. */
  function Written(ts: seq<Entry>, n: nat): nat
    requires n <= |ts|
  {
    if n == 0 then 0 else Written(ts, n - 1) + if Opened(ts, n - 1) then Size(ts[n - 1]) else 0
  }

  type Files = map<string, Bytes>

  /** A file whose content raised is removed again. */
  function Unpacked(ts: seq<Entry>, n: nat, before: Files): Files
    requires n <= |ts|
  {
    if n == 0 then before
    else
      var f := Unpacked(ts, n - 1, before);
      var e := ts[n - 1];
      if !Opened(ts, n - 1) then f
      else if e.content.raises then f - {BaseName(e.fileName)}
      else f[BaseName(e.fileName) := Joined(e.content.chunks)]
  }

  function Certs(ts: seq<Entry>, n: nat): seq<string>
    requires n <= |ts|
  {
    if n == 0 then []
    else
      var b := BaseName(ts[n - 1].fileName);
      Certs(ts, n - 1) + if Extracted(ts, n - 1) && IsCertName(b) then [b] else []
  }

  function Seen(ts: seq<Entry>, n: nat): set<string>
    requires n <= |ts|
  {
    set i | 0 <= i < n && BaseName(ts[i].fileName) != "" :: BaseName(ts[i].fileName)
  }

  lemma {:induction false} WrittenMonotone(ts: seq<Entry>, n: nat, m: nat)
    requires n <= m <= |ts|
    ensures Written(ts, n) <= Written(ts, m)
    decreases m
  {
    if n < m {
      WrittenMonotone(ts, n, m - 1);
    }
  }

  lemma SeenNext(ts: seq<Entry>, k: nat)
    requires k < |ts|
    ensures var b := BaseName(ts[k].fileName);
            && Seen(ts, k + 1) == Seen(ts, k) + (if b == "" then {} else {b})
            && (Opened(ts, k) <==> b != "" && b !in Seen(ts, k) && ts[k].safe && ts[k].opens)
  {
    hide BaseName;
  }

  /** What one more entry adds to each part of the result. */
  lemma NextEntry(ts: seq<Entry>, k: nat, before: Files)
    requires k < |ts|
    ensures var e, b := ts[k], BaseName(ts[k].fileName);
            && (Opened(ts, k) <==> FirstOfItsName(ts, k) && e.safe && e.opens)
            && Written(ts, k + 1) == Written(ts, k) + (if Opened(ts, k) then |Joined(e.content.chunks)| else 0)
            && Unpacked(ts, k + 1, before) ==
                 (if !Opened(ts, k) then Unpacked(ts, k, before)
                  else if e.content.raises then Unpacked(ts, k, before) - {b}
                  else Unpacked(ts, k, before)[b := Joined(e.content.chunks)])
            && Certs(ts, k + 1) == Certs(ts, k) + (if Opened(ts, k) && !e.content.raises && IsCertName(b) then [b] else [])
  {
    hide BaseName, Joined, IsCertName, FirstOfItsName;
  }

  datatype CopyEnd = Copied | CopyRaised | Bomb

  /** Copies one stream; the limit counts everything written so far. */
  method CopyStream(content: Stream, before: nat) returns (end: CopyEnd, out: Bytes, total: nat)
    requires IsStream(content) && before <= MAX_EXTRACTED_BYTES
    ensures total == before + |out|
    ensures end.Bomb? <==> before + |Joined(content.chunks)| > MAX_EXTRACTED_BYTES
    ensures end.Bomb? ==> MAX_EXTRACTED_BYTES < total <= MAX_EXTRACTED_BYTES + CHUNK_SIZE && out <= Joined(content.chunks)
    ensures !end.Bomb? ==> out == Joined(content.chunks) && (end.CopyRaised? <==> content.raises)
  {
    out, total := [], before;
    assert content.chunks[..0] == [];
    for k := 0 to |content.chunks|
      invariant out == Joined(content.chunks[..k]) && total == before + |out| <= MAX_EXTRACTED_BYTES
    {
      assert content.chunks[..k + 1][..k] == content.chunks[..k];
      out := out + content.chunks[k];
      total := total + |content.chunks[k]|;
      if total > MAX_EXTRACTED_BYTES {
        JoinedMonotone(content.chunks, k + 1);
        JoinedPrefix(content.chunks, k + 1);
        return Bomb, out, total;
      }
    }
    assert content.chunks[..|content.chunks|] == content.chunks;
    end := if content.raises then CopyRaised else Copied;
  }

  lemma {:induction false} JoinedPrefix(chunks: seq<Bytes>, n: nat)
    requires n <= |chunks|
    ensures Joined(chunks[..n]) <= Joined(chunks)
    decreases |chunks| - n
  {
    if n == |chunks| {
      assert chunks[..n] == chunks;
    } else {
      assert chunks[..n + 1][..n] == chunks[..n] && Last(chunks[..n + 1]) == chunks[n];
      JoinedPrefix(chunks, n + 1);
    }
  }

  /** Copies one entry into its file, and removes the file again when the content raises. */
  method ExtractEntry(e: Entry, files: Files, before: nat) returns (end: CopyEnd, after: Files, total: nat)
    requires IsStream(e.content) && before <= MAX_EXTRACTED_BYTES
    ensures end.Bomb? <==> before + Size(e) > MAX_EXTRACTED_BYTES
    ensures end.Bomb? ==> MAX_EXTRACTED_BYTES < total <= MAX_EXTRACTED_BYTES + CHUNK_SIZE
    ensures end.Bomb? ==> after - {BaseName(e.fileName)} == files - {BaseName(e.fileName)}
    ensures !end.Bomb? ==> total == before + Size(e) && (end.CopyRaised? <==> e.content.raises)
    ensures end.CopyRaised? ==> after == files - {BaseName(e.fileName)}
    ensures end.Copied? ==> after == files[BaseName(e.fileName) := Joined(e.content.chunks)]
  {
    var out;
    end, out, total := CopyStream(e.content, before);
    var b := BaseName(e.fileName);
    after := if end.CopyRaised? then files - {b} else files[b := out];
  }

  datatype Outcome = Imported(certs: seq<string>) | TooManyEntries | ZipBomb(at: nat)

  /**
    The loop stops normally exactly when the opened entries fit the limit together, however
    they are chunked; then the files and the returned certificates are those of the
    specification. Otherwise it stops at the first entry that passes the limit, and at most one
    chunk too much has been written.
   */
  method Extract(ts: seq<Entry>, before: Files) returns (r: Outcome, files: Files, total: nat)
    requires forall i | 0 <= i < |ts| :: IsStream(ts[i].content)
    ensures r.Imported? <==> Written(ts, |ts|) <= MAX_EXTRACTED_BYTES
    ensures r.Imported? ==> r.certs == Certs(ts, |ts|) && files == Unpacked(ts, |ts|, before) && total == Written(ts, |ts|)
    ensures !r.Imported? ==> r.ZipBomb? && r.at < |ts| && Opened(ts, r.at)
    ensures r.ZipBomb? ==> Written(ts, r.at) <= MAX_EXTRACTED_BYTES < Written(ts, r.at + 1)
    ensures r.ZipBomb? ==> MAX_EXTRACTED_BYTES < total <= MAX_EXTRACTED_BYTES + CHUNK_SIZE
    ensures r.ZipBomb? ==> var b := BaseName(ts[r.at].fileName);
                           files - {b} == Unpacked(ts, r.at, before) - {b}
  {
    var certs: seq<string> := [];
    var seen: set<string> := {};
    files, total := before, 0;
    assert Seen(ts, 0) == {} && Certs(ts, 0) == [] && Unpacked(ts, 0, before) == before && Written(ts, 0) == 0;
    hide BaseName, IsCertName, Joined, Seen, FirstOfItsName, Opened, Written, Unpacked, Certs, IsStream;
    for k := 0 to |ts|
      invariant seen == Seen(ts, k)
      invariant certs == Certs(ts, k)
      invariant files == Unpacked(ts, k, before)
      invariant total == Written(ts, k) <= MAX_EXTRACTED_BYTES
    {
      var b := BaseName(ts[k].fileName);
      SeenNext(ts, k);
      NextEntry(ts, k, before);
      if b == "" || b in seen {
        continue;
      }
      seen := seen + {b};
      if !ts[k].safe || !ts[k].opens {
        continue;
      }
      var end, written, sum := ExtractEntry(ts[k], files, total);
      files, total := written, sum;
      if end.Bomb? {
        WrittenMonotone(ts, k + 1, |ts|);
        return ZipBomb(k), files, total;
      }
      if end.Copied? && IsCertName(b) {
        certs := certs + [b];
      }
    }
    r := Imported(certs);
  }

  /** An import that stops has more to write than the limit. */
  lemma WrittenToBomb(ts: seq<Entry>, r: Outcome)
    requires r.ZipBomb? ==> r.at < |ts| && Written(ts, r.at + 1) > MAX_EXTRACTED_BYTES
    ensures r.ZipBomb? ==> Written(ts, |ts|) > MAX_EXTRACTED_BYTES
  {
    if r.ZipBomb? {
      WrittenMonotone(ts, r.at + 1, |ts|);
    }
  }

  method ImportArchive(infos: seq<Entry>, before: Files) returns (r: Outcome, files: Files, total: nat)
    requires forall i | 0 <= i < |infos| :: IsStream(infos[i].content)
    ensures r.TooManyEntries? <==> |infos| > 20_000
    ensures r.TooManyEntries? ==> files == before
    ensures var ts := Targets(infos);
            r.Imported? ==> r.certs == Certs(ts, |ts|) && files == Unpacked(ts, |ts|, before)
    ensures r.Imported? && before == map[] ==> forall b :: InFiles(infos, files, b) && (b in r.certs <==> b in files && IsCertName(b))
    ensures var ts := Targets(infos);
            |infos| <= 20_000 ==> (r.Imported? <==> Written(ts, |ts|) <= 268_435_456)
    ensures total <= 268_435_456 + 65_536
  {
    if |infos| > MAX_ENTRIES {
      return TooManyEntries, before, 0;
    }
    WhereStreams(infos, (e: Entry) => IsConfigName(e.fileName));
    WhereStreams(infos, (e: Entry) => IsCertName(e.fileName));
    r, files, total := Extract(Targets(infos), before);
    WrittenToBomb(Targets(infos), r);
    if r.Imported? && before == map[] {
      forall b
        ensures InFiles(infos, files, b) && (b in r.certs <==> b in files && IsCertName(b))
      {
        ImportedExactly(infos, b);
      }
    }
  }

  lemma {:induction false} WhereStreams(infos: seq<Entry>, keep: Entry -> bool)
    requires forall i | 0 <= i < |infos| :: IsStream(infos[i].content)
    ensures forall i | 0 <= i < |Where(infos, keep)| :: IsStream(Where(infos, keep)[i].content)
  {
    hide IsStream;
    if infos != [] {
      WhereStreams(infos[..|infos| - 1], keep);
    }
  }

  // ----- What the specification means -----

  /** No entry overwrites another: an extracted file holds the content of the first entry of its name. */
  lemma {:induction false} FirstEntryWins(ts: seq<Entry>, n: nat, before: Files, i: nat)
    requires i < n <= |ts| && Extracted(ts, i)
    ensures var b := BaseName(ts[i].fileName);
            b in Unpacked(ts, n, before) && Unpacked(ts, n, before)[b] == Joined(ts[i].content.chunks)
    decreases n
  {
    hide BaseName, Joined;
    if i < n - 1 {
      FirstEntryWins(ts, n - 1, before, i);
    }
  }

  /** Names that no opened entry has keep what the directory held before. */
  lemma {:induction false} OthersUntouched(ts: seq<Entry>, n: nat, before: Files, b: string)
    requires n <= |ts| && forall i | 0 <= i < n && Opened(ts, i) :: BaseName(ts[i].fileName) != b
    ensures b in Unpacked(ts, n, before) <==> b in before
    ensures b in before ==> Unpacked(ts, n, before)[b] == before[b]
    decreases n
  {
    hide BaseName, Joined;
    if n > 0 {
      OthersUntouched(ts, n - 1, before, b);
    }
  }

  /** In a fresh directory the files are exactly the extracted entries. */
  lemma {:induction false} FilesAreExtracted(ts: seq<Entry>, n: nat, b: string)
    requires n <= |ts|
    ensures b in Unpacked(ts, n, map[]) <==> exists i | 0 <= i < n :: Extracted(ts, i) && BaseName(ts[i].fileName) == b
    decreases n
  {
    hide BaseName, Joined;
    if n > 0 {
      FilesAreExtracted(ts, n - 1, b);
    }
  }

  /** The returned certificates are exactly the extracted names that look like certificates, each once. */
  lemma {:induction false} CertsAreExtracted(ts: seq<Entry>, n: nat, b: string)
    requires n <= |ts|
    ensures b in Certs(ts, n) <==> b in Unpacked(ts, n, map[]) && IsCertName(b)
    decreases n
  {
    hide Joined, IsCertName;
    FilesAreExtracted(ts, n, b);
    if n > 0 {
      FilesAreExtracted(ts, n - 1, b);
      hide BaseName, Unpacked;
      CertsAreExtracted(ts, n - 1, b);
    }
  }

  lemma OldCertDiffers(ts: seq<Entry>, n: nat, b: string)
    requires n < |ts| && Extracted(ts, n) && b in Certs(ts, n)
    ensures b != BaseName(ts[n].fileName)
  {
    CertsAreExtracted(ts, n, b);
    FilesAreExtracted(ts, n, b);
    hide BaseName, Unpacked, Certs, IsCertName;
  }

  lemma {:induction false} CertsOnce(ts: seq<Entry>, n: nat, j: nat, k: nat)
    requires n <= |ts| && j < k < |Certs(ts, n)|
    ensures Certs(ts, n)[j] != Certs(ts, n)[k]
    decreases n
  {
    var earlier := Certs(ts, n - 1);
    var b := BaseName(ts[n - 1].fileName);
    assert Certs(ts, n) == earlier + if Extracted(ts, n - 1) && IsCertName(b) then [b] else [];
    hide Certs, BaseName, Extracted, IsCertName;
    if k < |earlier| {
      CertsOnce(ts, n - 1, j, k);
    } else {
      assert earlier[j] in earlier;
      OldCertDiffers(ts, n - 1, earlier[j]);
    }
  }

  /** The same entries, cut into chunks differently. */
  predicate Rechunked(ts: seq<Entry>, us: seq<Entry>) {
    && |ts| == |us|
    && forall i | 0 <= i < |ts| ::
         && ts[i].fileName == us[i].fileName && ts[i].safe == us[i].safe && ts[i].opens == us[i].opens
         && ts[i].content.raises == us[i].content.raises
         && Joined(ts[i].content.chunks) == Joined(us[i].content.chunks)
  }

  /** Neither the verdict nor the result depends on how the content is cut into chunks. */
  lemma {:induction false} ChunkingIsInvisible(ts: seq<Entry>, us: seq<Entry>, n: nat, before: Files)
    requires Rechunked(ts, us) && n <= |ts|
    ensures Written(ts, n) == Written(us, n) && Unpacked(ts, n, before) == Unpacked(us, n, before) && Certs(ts, n) == Certs(us, n)
    decreases n
  {
    hide BaseName, Joined, IsCertName;
    if n > 0 {
      ChunkingIsInvisible(ts, us, n - 1, before);
      assert FirstOfItsName(ts, n - 1) <==> FirstOfItsName(us, n - 1);
    }
  }

  // ----- Which entries, and under which names -----

  lemma {:induction false} LastPart(path: string) returns (n: nat)
    ensures n <= |path| && path[n..] == BaseName(path) && '/' !in BaseName(path) && (n == 0 || path[n - 1] == '/')
  {
    n := |path|;
    if path != "" && Last(path) != '/' {
      var front := path[..|path| - 1];
      n := LastPart(front);
      var base := BaseName(front);
      assert BaseName(path) == base + [Last(path)];
      hide BaseName;
      assert path[n..] == front[n..] + [Last(path)];
    }
  }

  /** The base name is what follows the last '/'. */
  lemma BaseNameIsLastPart(path: string)
    ensures '/' !in BaseName(path)
    ensures exists n | 0 <= n <= |path| :: path[n..] == BaseName(path) && (n == 0 || path[n - 1] == '/')
  {
    var n := LastPart(path);
    hide BaseName;
  }

  lemma LowerTwice(s: string)
    ensures Lower(Lower(s)) == Lower(s)
  {
  }

  /** Neither test looks at letter case. */
  lemma CaseIsIgnored(name: string)
    ensures IsConfigName(name) <==> IsConfigName(Lower(name))
    ensures IsCertName(name) <==> IsCertName(Lower(name))
  {
    LowerTwice(name);
    hide Lower;
  }

  /** A configuration name is one that ends in ".ovpn", in any letter case, or in that and one newline. */
  lemma ConfigNameExactly(name: string)
    ensures IsConfigName(name) <==>
              exists n | 0 <= n <= |name| :: Lower(name[n..]) == ".ovpn" || Lower(name[n..]) == ".ovpn\n"
  {
    forall n | 0 <= n <= |name|
      ensures Lower(name[n..]) == Lower(name)[n..]
    {
    }
    if IsConfigName(name) {
      assert Lower(name[|name| - 5..]) == ".ovpn" || Lower(name[|name| - 6..]) == ".ovpn\n";
    }
  }

  predicate IsMark(mark: string) {
    mark == ".crt" || mark == ".pem" || mark == ".ca" || mark == "cert"
  }

  /** The name has a mark from `m` to `n`, and no letter or digit after it. */
  predicate Marked(name: string, m: nat, n: nat) {
    m <= n <= |name| && IsMark(Lower(name[m..n])) && (n == |name| || !IsAlphanumeric(name[n]))
  }

  lemma LowerSlice(name: string, m: nat, n: nat)
    requires m <= n <= |name|
    ensures Lower(name[m..n]) == Lower(name)[m..n] && |Lower(name)| == |name|
    ensures n < |name| ==> (IsAlphanumeric(Lower(name)[n]) <==> IsAlphanumeric(name[n]))
  {
  }

  lemma MarkedIsCert(name: string, m: nat, n: nat)
    requires Marked(name, m, n)
    ensures IsCertName(name)
  {
    LowerSlice(name, m, n);
    var l := Lower(name);
    var mark := l[m..n];
    hide Lower;
    assert l[m..][..n - m] == mark;
    assert mark <= l[m..];
    assert MarkAt(l, m, mark);
  }

  lemma CertIsMarked(name: string) returns (m: nat, n: nat)
    requires IsCertName(name)
    ensures Marked(name, m, n)
  {
    var l := Lower(name);
    LowerSlice(name, 0, |name|);
    m :| 0 <= m <= |l| && (MarkAt(l, m, ".crt") || MarkAt(l, m, ".pem") || MarkAt(l, m, ".ca") || MarkAt(l, m, "cert"));
    var mark := if MarkAt(l, m, ".crt") then ".crt" else if MarkAt(l, m, ".pem") then ".pem" else if MarkAt(l, m, ".ca") then ".ca" else "cert";
    hide Lower, IsCertName;
    n := m + |mark|;
    assert l[m..n] == mark;
    LowerSlice(name, m, n);
  }

  /**
    A certificate name is one with ".crt", ".pem", ".ca" or "cert", in any letter case, that
    ends the name or is followed by something that is no letter and no digit.
   */
  lemma CertNameExactly(name: string)
    ensures IsCertName(name) <==> exists m: nat, n: nat :: Marked(name, m, n)
  {
    hide Marked;
    if IsCertName(name) {
      var m, n := CertIsMarked(name);
    }
    if m: nat, n: nat :| Marked(name, m, n) {
      MarkedIsCert(name, m, n);
    }
    hide IsCertName;
  }

  /** `sub` is the entries of `infos` that pass, in their order; `at` says where each stands. */
  ghost predicate Selects(infos: seq<Entry>, keep: Entry -> bool, sub: seq<Entry>, at: seq<nat>) {
    && |at| == |sub|
    && (forall k | 0 <= k < |at| :: at[k] < |infos| && sub[k] == infos[at[k]] && keep(sub[k]))
    && (forall j, k | 0 <= j < k < |at| :: at[j] < at[k])
    && (forall i | 0 <= i < |infos| && keep(infos[i]) :: i in at)
  }

  lemma {:induction false} WhereSelects(infos: seq<Entry>, keep: Entry -> bool) returns (at: seq<nat>)
    ensures Selects(infos, keep, Where(infos, keep), at)
  {
    at := [];
    if infos != [] {
      var n := |infos| - 1;
      var front := WhereSelects(infos[..n], keep);
      hide Selects;
      OneMoreSelected(infos, keep, Where(infos[..n], keep), front);
      at := if keep(infos[n]) then front + [n] else front;
      assert Where(infos[..n], keep) + [] == Where(infos[..n], keep);
    }
  }

  lemma OneMoreSelected(infos: seq<Entry>, keep: Entry -> bool, sub: seq<Entry>, at: seq<nat>)
    requires infos != [] && Selects(infos[..|infos| - 1], keep, sub, at)
    ensures var n := |infos| - 1;
            if keep(infos[n]) then Selects(infos, keep, sub + [infos[n]], at + [n]) else Selects(infos, keep, sub, at)
  {
    var n := |infos| - 1;
    forall k | 0 <= k < |at|
      ensures at[k] < n && sub[k] == infos[at[k]] && keep(sub[k])
    {
      assert infos[..n][at[k]] == infos[at[k]];
    }
    forall i | 0 <= i < n && keep(infos[i])
      ensures i in at
    {
      assert infos[..n][i] == infos[i];
    }
  }

  /** Entry `i` is the first to be processed for base name `b`: configurations before certificates, each in archive order. */
  ghost predicate FirstFor(infos: seq<Entry>, i: nat, b: string) {
    && i < |infos| && b != "" && BaseName(infos[i].fileName) == b
    && (|| (&& IsConfigName(infos[i].fileName)
            && forall j | 0 <= j < i && IsConfigName(infos[j].fileName) :: BaseName(infos[j].fileName) != b)
        || (&& IsCertName(infos[i].fileName)
            && (forall j | 0 <= j < |infos| && IsConfigName(infos[j].fileName) :: BaseName(infos[j].fileName) != b)
            && forall j | 0 <= j < i && IsCertName(infos[j].fileName) :: BaseName(infos[j].fileName) != b))
  }

  /** `ts` is the configurations and then the certificates of an archive, each group in archive order, and all of them. */
  ghost predicate AreTargets(infos: seq<Entry>, ts: seq<Entry>, at: seq<nat>, configs: nat) {
    && |at| == |ts| && configs <= |ts|
    && InPlace(infos, ts, at, configs) && InOrder(at, configs) && Complete(infos, at, configs)
  }

  ghost predicate InPlace(infos: seq<Entry>, ts: seq<Entry>, at: seq<nat>, configs: nat)
    requires |at| == |ts|
  {
    forall k | 0 <= k < |ts| :: at[k] < |infos| && ts[k] == infos[at[k]] && Passes(ts[k], k < configs)
  }

  ghost predicate InOrder(at: seq<nat>, configs: nat)
    requires configs <= |at|
  {
    && (forall j, k | 0 <= j < k < configs :: at[j] < at[k])
    && (forall j, k | configs <= j < k < |at| :: at[j] < at[k])
  }

  ghost predicate Complete(infos: seq<Entry>, at: seq<nat>, configs: nat)
    requires configs <= |at|
  {
    && (forall i | 0 <= i < |infos| && Passes(infos[i], true) :: exists k | 0 <= k < configs :: at[k] == i)
    && (forall i | 0 <= i < |infos| && Passes(infos[i], false) :: exists k | configs <= k < |at| :: at[k] == i)
  }

  /** The targets are the configurations and then the certificates, nothing else, and all of them. */
  lemma TargetsExactly(infos: seq<Entry>) returns (at: seq<nat>, configs: nat)
    ensures AreTargets(infos, Targets(infos), at, configs)
  {
    var isConfig, isCert := (e: Entry) => IsConfigName(e.fileName), (e: Entry) => IsCertName(e.fileName);
    var first := WhereSelects(infos, isConfig);
    var second := WhereSelects(infos, isCert);
    var sub, rest := Where(infos, isConfig), Where(infos, isCert);
    assert Targets(infos) == sub + rest;
    assert AllNamed(infos, true, sub, first) by { NamedConfigs(infos, sub, first); }
    assert AllNamed(infos, false, rest, second) by { NamedCerts(infos, rest, second); }
    hide *;
    TargetsJoin(infos, sub, rest, first, second);
    at, configs := first + second, |sub|;
  }

  predicate Passes(e: Entry, config: bool) {
    if config then IsConfigName(e.fileName) else IsCertName(e.fileName)
  }

  /** `sub` is all entries of one of the two kinds, in archive order. */
  ghost predicate AllNamed(infos: seq<Entry>, config: bool, sub: seq<Entry>, at: seq<nat>) {
    && |at| == |sub|
    && (forall k | 0 <= k < |at| :: at[k] < |infos| && sub[k] == infos[at[k]] && Passes(sub[k], config))
    && (forall j, k | 0 <= j < k < |at| :: at[j] < at[k])
    && (forall i | 0 <= i < |infos| && Passes(infos[i], config) :: exists k | 0 <= k < |at| :: at[k] == i)
  }

  lemma NamedConfigs(infos: seq<Entry>, sub: seq<Entry>, at: seq<nat>)
    requires Selects(infos, (e: Entry) => IsConfigName(e.fileName), sub, at)
    ensures AllNamed(infos, true, sub, at)
  {
    hide IsConfigName;
  }

  lemma NamedCerts(infos: seq<Entry>, sub: seq<Entry>, at: seq<nat>)
    requires Selects(infos, (e: Entry) => IsCertName(e.fileName), sub, at)
    ensures AllNamed(infos, false, sub, at)
  {
    hide IsCertName;
  }

  lemma TargetsJoin(infos: seq<Entry>, sub: seq<Entry>, rest: seq<Entry>, first: seq<nat>, second: seq<nat>)
    requires AllNamed(infos, true, sub, first) && AllNamed(infos, false, rest, second)
    ensures AreTargets(infos, sub + rest, first + second, |sub|)
  {
    hide Passes;
    JoinInPlace(infos, sub, rest, first, second);
    JoinInOrder(first, second);
    JoinComplete(infos, first, second);
    hide InPlace, InOrder, Complete;
  }

  lemma JoinInPlace(infos: seq<Entry>, sub: seq<Entry>, rest: seq<Entry>, first: seq<nat>, second: seq<nat>)
    requires |first| == |sub| && |second| == |rest|
    requires forall k | 0 <= k < |first| :: first[k] < |infos| && sub[k] == infos[first[k]] && Passes(sub[k], true)
    requires forall k | 0 <= k < |second| :: second[k] < |infos| && rest[k] == infos[second[k]] && Passes(rest[k], false)
    ensures InPlace(infos, sub + rest, first + second, |sub|)
  {
    hide Passes;
    forall k | 0 <= k < |sub + rest|
      ensures (first + second)[k] < |infos| && (sub + rest)[k] == infos[(first + second)[k]] && Passes((sub + rest)[k], k < |sub|)
    {
    }
  }

  lemma JoinInOrder(first: seq<nat>, second: seq<nat>)
    requires forall j, k | 0 <= j < k < |first| :: first[j] < first[k]
    requires forall j, k | 0 <= j < k < |second| :: second[j] < second[k]
    ensures InOrder(first + second, |first|)
  {
    var at, n := first + second, |first|;
    forall j, k | n <= j < k < |at|
      ensures at[j] < at[k]
    {
      assert second[j - n] < second[k - n];
    }
  }

  lemma JoinComplete(infos: seq<Entry>, first: seq<nat>, second: seq<nat>)
    requires forall i | 0 <= i < |infos| && Passes(infos[i], true) :: exists k | 0 <= k < |first| :: first[k] == i
    requires forall i | 0 <= i < |infos| && Passes(infos[i], false) :: exists k | 0 <= k < |second| :: second[k] == i
    ensures Complete(infos, first + second, |first|)
  {
    hide Passes;
    var at := first + second;
    forall i | 0 <= i < |infos| && Passes(infos[i], true)
      ensures exists k | 0 <= k < |first| :: at[k] == i
    {
      var k :| 0 <= k < |first| && first[k] == i;
      assert at[k] == i;
    }
    forall i | 0 <= i < |infos| && Passes(infos[i], false)
      ensures exists k | |first| <= k < |at| :: at[k] == i
    {
      var k :| 0 <= k < |second| && second[k] == i;
      assert at[|first| + k] == i;
    }
  }

  lemma FirstOfItsNameIsFirstFor(infos: seq<Entry>, ts: seq<Entry>, at: seq<nat>, configs: nat, k: nat)
    requires AreTargets(infos, ts, at, configs) && k < |ts| && BaseName(ts[k].fileName) != ""
    ensures FirstOfItsName(ts, k) <==> (forall j | 0 <= j < k :: BaseName(ts[j].fileName) != BaseName(ts[k].fileName))
    ensures FirstOfItsName(ts, k) ==> FirstFor(infos, at[k], BaseName(ts[k].fileName))
  {
    hide BaseName, IsConfigName, IsCertName;
    if FirstOfItsName(ts, k) {
      var i := at[k];
      if k < configs {
        forall j | 0 <= j < i && IsConfigName(infos[j].fileName)
          ensures BaseName(infos[j].fileName) != BaseName(ts[k].fileName)
        {
          assert Passes(infos[j], true);
          var q :| 0 <= q < configs && at[q] == j;
          assert q < k;
        }
      } else {
        forall j | 0 <= j < |infos| && IsConfigName(infos[j].fileName)
          ensures BaseName(infos[j].fileName) != BaseName(ts[k].fileName)
        {
          assert Passes(infos[j], true);
          var q :| 0 <= q < configs && at[q] == j;
        }
        forall j | 0 <= j < i && IsCertName(infos[j].fileName)
          ensures BaseName(infos[j].fileName) != BaseName(ts[k].fileName)
        {
          assert Passes(infos[j], false);
          var q :| configs <= q < |at| && at[q] == j;
          assert q < k;
        }
      }
    }
  }

  lemma FirstForIsTarget(infos: seq<Entry>, ts: seq<Entry>, at: seq<nat>, configs: nat, i: nat, b: string) returns (k: nat)
    requires AreTargets(infos, ts, at, configs) && FirstFor(infos, i, b)
    ensures k < |ts| && at[k] == i && FirstOfItsName(ts, k)
  {
    hide BaseName, IsConfigName, IsCertName;
    if IsConfigName(infos[i].fileName) && forall j | 0 <= j < i && IsConfigName(infos[j].fileName) :: BaseName(infos[j].fileName) != b {
      assert Passes(infos[i], true);
      k :| 0 <= k < configs && at[k] == i;
      forall q | 0 <= q < k
        ensures BaseName(ts[q].fileName) != b
      {
        assert at[q] < at[k];
      }
    } else {
      assert Passes(infos[i], false);
      k :| configs <= k < |at| && at[k] == i;
      forall q | 0 <= q < k
        ensures BaseName(ts[q].fileName) != b
      {
        if q >= configs {
          assert at[q] < at[k];
        }
      }
    }
  }

  /** A name is a file exactly if its first entry opens and does not raise, and then the file is that entry's content. */
  ghost predicate InFiles(infos: seq<Entry>, files: Files, b: string) {
    && (b in files <==> exists i: nat :: FirstFor(infos, i, b) && infos[i].safe && infos[i].opens && !infos[i].content.raises)
    && (forall i: nat | FirstFor(infos, i, b) && infos[i].safe && infos[i].opens && !infos[i].content.raises ::
          b in files && files[b] == Joined(infos[i].content.chunks))
  }

  /** What an import into an empty directory leaves under the name `b`, told by the archive alone. */
  lemma ImportedExactly(infos: seq<Entry>, b: string)
    ensures var ts := Targets(infos);
            var files := Unpacked(ts, |ts|, map[]);
            && InFiles(infos, files, b)
            && (b in Certs(ts, |ts|) <==> b in files && IsCertName(b))
  {
    var ts := Targets(infos);
    var at, configs := TargetsExactly(infos);
    FilesAreExtracted(ts, |ts|, b);
    CertsAreExtracted(ts, |ts|, b);
    hide AreTargets, Targets, Unpacked, Certs, BaseName, IsCertName, IsConfigName, Joined, FirstFor, FirstOfItsName;
    if b in Unpacked(ts, |ts|, map[]) {
      var k :| 0 <= k < |ts| && Extracted(ts, k) && BaseName(ts[k].fileName) == b;
      NamedWhenFirst(ts, k);
      FirstOfItsNameIsFirstFor(infos, ts, at, configs, k);
      EntryOfTarget(infos, ts, at, configs, k);
      assert FirstFor(infos, at[k], b);
    }
    forall i: nat | FirstFor(infos, i, b) && infos[i].safe && infos[i].opens && !infos[i].content.raises
      ensures b in Unpacked(ts, |ts|, map[]) && Unpacked(ts, |ts|, map[])[b] == Joined(infos[i].content.chunks)
    {
      var k := FirstForIsTarget(infos, ts, at, configs, i, b);
      EntryOfTarget(infos, ts, at, configs, k);
      NameOfFirst(infos, i, b);
      FirstEntryWins(ts, |ts|, map[], k);
    }
  }

  lemma NamedWhenFirst(ts: seq<Entry>, k: nat)
    requires k < |ts| && Extracted(ts, k)
    ensures BaseName(ts[k].fileName) != "" && FirstOfItsName(ts, k)
  {
  }

  lemma NameOfFirst(infos: seq<Entry>, i: nat, b: string)
    requires FirstFor(infos, i, b)
    ensures i < |infos| && BaseName(infos[i].fileName) == b
  {
  }

  lemma EntryOfTarget(infos: seq<Entry>, ts: seq<Entry>, at: seq<nat>, configs: nat, k: nat)
    requires AreTargets(infos, ts, at, configs) && k < |ts|
    ensures k < |at| && at[k] < |infos| && ts[k] == infos[at[k]]
  {
  }
}
