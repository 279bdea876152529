/**
 * Chunked upload of .dem replay containers: staging in any order, assembly in
 * index order, and a write-once store.
 */
module DemUpload {
  import opened Bytes
  import opened Text

  const MAX_UPLOAD: nat := 0x1000_0000
  const MAX_CHUNKS: nat := 0x10_0000
  const MAGIC: seq<Byte> := [0x50, 0x48, 0x44, 0x45, 0x4D, 0x30, 0x30, 0x31]

  /** The header fields the lobby keeps. */
  datatype Summary = Summary(matchID: string, modeID: string, bossID: string, finalTick: int, entryCount: int)

  /** Digests and the JSON decoder come from libraries: any functions of these types. */
  datatype Env = Env(md5: seq<Byte> -> string, sha256: seq<Byte> -> string, json: seq<Byte> -> Option<Summary>)

  function LittleEndian(b: seq<Byte>): (n: nat) {
    if b == [] then 0 else b[0] + 256 * LittleEndian(b[1..])
  }

  /** parseDemHeaderSummary: magic, header length, header. */
  function ParseHeader(env: Env, b: seq<Byte>): (r: Option<Summary>) {
    if |b| < |MAGIC| + 4 || b[..|MAGIC|] != MAGIC then None
    else
      var n := LittleEndian(b[|MAGIC|..|MAGIC| + 4]);
      if n == 0 || |MAGIC| + 4 + n > |b| then None else env.json(b[|MAGIC| + 4..|MAGIC| + 4 + n])
  }

  /** One upload request; the chunk is None when its base64 text does not decode. */
  datatype Request = Request(matchID: string, replayID: string, demSize: int, sha: string,
                             index: int, total: int, md5: string, chunk: Option<seq<Byte>>)

  datatype Staging = Staging(replayID: string, demSize: int, sha: string, total: int,
                             chunks: map<int, seq<Byte>>, bytes: nat)

  datatype Record = Record(matchID: string, replayID: string, sha: string, summary: Summary, bytes: seq<Byte>)

  datatype Reason =
    | InvalidRequest | InvalidBase64 | EmptyChunk | ChunkMd5Mismatch | MetadataConflict
    | ChunkConflict | TooLarge | SizeMismatch | Sha256Mismatch | HeaderInvalid

  datatype Result =
    | Received(chunks: nat)
    | Complete(replayID: string)
    | Duplicate(replayID: string)
    | Rejected(reason: Reason)

  datatype Store = Store(staging: map<string, Staging>, byMatch: map<string, Record>, byReplay: map<string, string>)

  function FirstNonEmpty(a: string, b: string): (r: string) { if a != "" then a else b }

  function Digest(text: string): (r: string) { ToLower(TrimSpace(text)) }

  /** The staged chunks put together in index order, from index k on. */
  function Assemble(chunks: map<int, seq<Byte>>, k: nat, total: nat): (r: seq<Byte>)
    requires k <= total
    decreases total - k
  {
    if k == total then []
    else (if k in chunks then chunks[k] else []) + Assemble(chunks, k + 1, total)
  }

  /** The checks that precede any staging. */
  function Screen(env: Env, s: Store, r: Request): (bad: Option<Reason>) {
    if TrimSpace(r.matchID) == "" || r.total <= 0 || r.total > MAX_CHUNKS || r.index < 0 || r.index >= r.total
       || r.demSize < 0 || r.demSize > MAX_UPLOAD then Some(InvalidRequest)
    else if TrimSpace(r.matchID) in s.byMatch then None
    else if r.chunk.None? then Some(InvalidBase64)
    else if r.chunk.value == [] && r.demSize != 0 then Some(EmptyChunk)
    else if Digest(r.md5) != "" && env.md5(r.chunk.value) != Digest(r.md5) then Some(ChunkMd5Mismatch)
    else None
  }

  /** The staging a request works on, or None when its metadata contradict earlier chunks. */
  function StagingFor(s: Store, r: Request): (g: Option<Staging>)
    ensures g.Some? ==> g.value.total == r.total
  {
    var m, replayID, sha := TrimSpace(r.matchID), TrimSpace(r.replayID), Digest(r.sha);
    if m !in s.staging then Some(Staging(replayID, r.demSize, sha, r.total, map[], 0))
    else
      var g := s.staging[m];
      if g.total != r.total || g.demSize != r.demSize || (g.sha != "" && sha != "" && g.sha != sha) then None
      else Some(if g.replayID == "" then g.(replayID := replayID) else g)
  }

  /** Validation of the assembled container and the write-once save. */
  function Finish(env: Env, s: Store, m: string, g: Staging): (r: (Result, Store))
    requires g.total >= 0
  {
    var assembled := Assemble(g.chunks, 0, g.total);
    if g.demSize != 0 && |assembled| != g.demSize then (Rejected(SizeMismatch), s)
    else if g.sha != "" && env.sha256(assembled) != g.sha then (Rejected(Sha256Mismatch), s)
    else
      match ParseHeader(env, assembled)
      case None => (Rejected(HeaderInvalid), s)
      case Some(summary) =>
        var record := Record(m, FirstNonEmpty(g.replayID, summary.matchID), env.sha256(assembled), summary, assembled);
        (Complete(record.replayID), SaveDem(s, record))
  }

  /** MemoryDemStore.SaveDem: the first record of a match stays. */
  function SaveDem(s: Store, record: Record): (s': Store) {
    if record.matchID in s.byMatch then s
    else
      Store(s.staging, s.byMatch[record.matchID := record],
            if record.replayID != "" then s.byReplay[record.replayID := record.matchID] else s.byReplay)
  }

  /** A screened chunk put into its staging, which it may complete or burst. */
  function Place(env: Env, s: Store, m: string, g: Staging, index: int, chunk: seq<Byte>): (r: (Result, Store))
    requires g.total >= 0
  {
    if index in g.chunks then
      (if g.chunks[index] != chunk then Rejected(ChunkConflict) else Received(|g.chunks|),
       s.(staging := s.staging[m := g]))
    else
      var g' := g.(chunks := g.chunks[index := chunk], bytes := g.bytes + |chunk|);
      if g'.bytes > MAX_UPLOAD then (Rejected(TooLarge), s.(staging := s.staging - {m}))
      else if |g'.chunks| < g.total then (Received(|g'.chunks|), s.(staging := s.staging[m := g']))
      else Finish(env, s.(staging := s.staging - {m}), m, g')
  }

  /** SubmitDemReplayChunk. */
  function Submit(env: Env, s: Store, r: Request): (result: (Result, Store)) {
    var m := TrimSpace(r.matchID);
    match Screen(env, s, r)
    case Some(reason) => (Rejected(reason), s)
    case None =>
      if m in s.byMatch then (Duplicate(FirstNonEmpty(TrimSpace(r.replayID), s.byMatch[m].replayID)), s)
      else
        match StagingFor(s, r)
        case None => (Rejected(MetadataConflict), s)
        case Some(g) => Place(env, s, m, g, r.index, r.chunk.value)
  }

  function RunFrom(env: Env, s: Store, requests: seq<Request>): (s': Store) {
    if requests == [] then s
    else Submit(env, RunFrom(env, s, requests[..|requests| - 1]), requests[|requests| - 1]).1
  }

  // ----- what no request can do -----

  /** The upload of one match looks the same in both states. */
  ghost predicate SameFor(s: Store, s': Store, m: string) {
    && (m in s'.staging <==> m in s.staging) && (m in s.staging ==> s'.staging[m] == s.staging[m])
    && (m in s'.byMatch <==> m in s.byMatch) && (m in s.byMatch ==> s'.byMatch[m] == s.byMatch[m])
  }

  lemma FinishFrame(env: Env, s: Store, m: string, g: Staging, other: string)
    requires g.total >= 0 && other != m
    ensures SameFor(s, Finish(env, s, m, g).1, other)
  {
  }

  lemma PlaceFrame(env: Env, s: Store, m: string, g: Staging, index: int, chunk: seq<Byte>, other: string)
    requires g.total >= 0 && other != m
    ensures SameFor(s, Place(env, s, m, g, index, chunk).1, other)
  {
    var g' := g.(chunks := g.chunks[index := chunk], bytes := g.bytes + |chunk|);
    var s' := Place(env, s, m, g, index, chunk).1;
    if index in g.chunks {
      assert s' == s.(staging := s.staging[m := g]);
    } else if g'.bytes > MAX_UPLOAD {
      assert s' == s.(staging := s.staging - {m});
    } else if |g'.chunks| < g.total {
      assert s' == s.(staging := s.staging[m := g']);
    } else {
      assert s' == Finish(env, s.(staging := s.staging - {m}), m, g').1;
      FinishFrame(env, s.(staging := s.staging - {m}), m, g', other);
    }
  }

  /** A request speaks about its own match only. */
  lemma OtherMatchUntouched(env: Env, s: Store, r: Request, m: string)
    requires TrimSpace(r.matchID) != m
    ensures SameFor(s, Submit(env, s, r).1, m)
  {
    var g := StagingFor(s, r);
    if Screen(env, s, r).None? && g.Some? {
      PlaceFrame(env, s, TrimSpace(r.matchID), g.value, r.index, r.chunk.GetOr([]), m);
    }
  }

  /** A stored record never changes, whatever is sent afterwards. */
  lemma {:induction false} StoredForever(env: Env, s: Store, requests: seq<Request>, m: string)
    requires m in s.byMatch
    ensures var s' := RunFrom(env, s, requests); m in s'.byMatch && s'.byMatch[m] == s.byMatch[m]
  {
    if requests != [] {
      var front, r := requests[..|requests| - 1], requests[|requests| - 1];
      StoredForever(env, s, front, m);
      if TrimSpace(r.matchID) != m {
        OtherMatchUntouched(env, RunFrom(env, s, front), r, m);
      }
    }
  }

  // ----- one file, any arrival order -----

  function Concat(chunks: seq<seq<Byte>>): (r: seq<Byte>) {
    if chunks == [] then [] else chunks[0] + Concat(chunks[1..])
  }

  /** A file cut into chunks that the lobby would take in one piece. */
  ghost predicate Uploadable(env: Env, chunks: seq<seq<Byte>>, demSize: int) {
    && 1 <= |chunks| <= MAX_CHUNKS && |Concat(chunks)| <= MAX_UPLOAD
    && (demSize == 0 || (demSize == |Concat(chunks)| && forall i :: 0 <= i < |chunks| ==> chunks[i] != []))
    && ParseHeader(env, Concat(chunks)).Some?
  }

  /** A request that carries one chunk of the file. */
  ghost predicate Carries(env: Env, chunks: seq<seq<Byte>>, demSize: int, m: string, r: Request) {
    && TrimSpace(r.matchID) == m && m != ""
    && r.demSize == demSize && r.total == |chunks| && 0 <= r.index < |chunks|
    && r.chunk == Some(chunks[r.index])
    && (Digest(r.md5) == "" || Digest(r.md5) == env.md5(chunks[r.index]))
    && (Digest(r.sha) == "" || Digest(r.sha) == env.sha256(Concat(chunks)))
  }

  /** Every request either carries a chunk of the file or belongs to another match. */
  ghost predicate Arrivals(env: Env, chunks: seq<seq<Byte>>, demSize: int, m: string, requests: seq<Request>) {
    forall k :: 0 <= k < |requests| ==>
      TrimSpace(requests[k].matchID) != m || Carries(env, chunks, demSize, m, requests[k])
  }

  /** The chunk indices that have arrived for the match. */
  function Arrived(m: string, requests: seq<Request>): (r: set<int>) {
    set k | 0 <= k < |requests| && TrimSpace(requests[k].matchID) == m :: requests[k].index
  }

  predicate Within(arrived: set<int>, n: nat) { forall i :: i in arrived ==> 0 <= i < n }

  predicate All(arrived: set<int>, n: nat) { forall i :: 0 <= i < n ==> i in arrived }

  function Indices(n: nat): (r: set<int>)
    ensures Within(r, n) && All(r, n) && |r| == n
  {
    if n == 0 then {} else Indices(n - 1) + {n - 1}
  }

  /** A set of indices is complete exactly when it has as many elements as there are chunks. */
  lemma CompleteIff(arrived: set<int>, n: nat)
    requires Within(arrived, n)
    ensures |arrived| <= n
    ensures |arrived| == n <==> All(arrived, n)
  {
    var all := Indices(n);
    assert forall i: int :: i in all <==> i in arrived + (all - arrived);
    assert all == arrived + (all - arrived);
    assert |all| == |arrived| + |all - arrived|;
    if All(arrived, n) {
      assert forall i: int :: i in arrived <==> i in all;
      assert arrived == all;
    }
    if |arrived| == n {
      assert |all - arrived| == 0;
      assert forall i: int :: 0 <= i < n ==> i in all && i !in all - arrived;
    }
  }

  /** The octets of the arrived chunks with an index below k. */
  function ArrivedSize(chunks: seq<seq<Byte>>, arrived: set<int>, k: nat): (n: nat)
    requires k <= |chunks|
  {
    if k == 0 then 0
    else ArrivedSize(chunks, arrived, k - 1) + if k - 1 in arrived then |chunks[k - 1]| else 0
  }

  lemma {:induction false} ArrivedSizeAdd(chunks: seq<seq<Byte>>, arrived: set<int>, i: int, k: nat)
    requires k <= |chunks| && 0 <= i < |chunks| && i !in arrived
    ensures ArrivedSize(chunks, arrived + {i}, k)
         == ArrivedSize(chunks, arrived, k) + if i < k then |chunks[i]| else 0
  {
    if k > 0 {
      ArrivedSizeAdd(chunks, arrived, i, k - 1);
    }
  }

  lemma {:induction false} ConcatPrefix(chunks: seq<seq<Byte>>, k: nat)
    requires k < |chunks|
    ensures Concat(chunks[..k + 1]) == Concat(chunks[..k]) + chunks[k]
  {
    if k == 0 {
      assert chunks[..1] == [chunks[0]] && chunks[..1][1..] == [] && chunks[..0] == [];
    } else {
      ConcatPrefix(chunks[1..], k - 1);
      assert chunks[..k + 1][1..] == chunks[1..][..k] && chunks[..k][1..] == chunks[1..][..k - 1];
    }
  }

  lemma {:induction false} ArrivedSizeBound(chunks: seq<seq<Byte>>, arrived: set<int>, k: nat)
    requires k <= |chunks|
    ensures ArrivedSize(chunks, arrived, k) <= |Concat(chunks[..k])|
  {
    if k > 0 {
      ArrivedSizeBound(chunks, arrived, k - 1);
      ConcatPrefix(chunks, k - 1);
    }
  }

  /** With every chunk staged, assembly in index order is the file. */
  lemma {:induction false} AssembleAll(chunks: seq<seq<Byte>>, staged: map<int, seq<Byte>>, k: nat)
    requires k <= |chunks|
    requires forall i :: 0 <= i < |chunks| ==> i in staged && staged[i] == chunks[i]
    ensures Assemble(staged, k, |chunks|) == Concat(chunks[k..])
    decreases |chunks| - k
  {
    if k < |chunks| {
      AssembleAll(chunks, staged, k + 1);
      assert chunks[k..][1..] == chunks[k + 1..];
    }
  }

  /** The state of the match after the given chunk indices have arrived. */
  ghost predicate Progress(env: Env, chunks: seq<seq<Byte>>, demSize: int, m: string, arrived: set<int>, s: Store) {
    && Within(arrived, |chunks|)
    && if All(arrived, |chunks|) then
         m in s.byMatch && m !in s.staging && s.byMatch[m].bytes == Concat(chunks)
         && s.byMatch[m].sha == env.sha256(Concat(chunks))
       else
         m !in s.byMatch && if arrived == {} then m !in s.staging else
           m in s.staging && Staged(env, chunks, demSize, arrived, s.staging[m])
  }

  ghost predicate Staged(env: Env, chunks: seq<seq<Byte>>, demSize: int, arrived: set<int>, g: Staging) {
    && g.total == |chunks| && g.demSize == demSize && g.sha in {"", env.sha256(Concat(chunks))}
    && g.chunks.Keys == arrived
    && (forall i :: i in arrived ==> 0 <= i < |chunks| && g.chunks[i] == chunks[i])
    && g.bytes == ArrivedSize(chunks, arrived, |chunks|)
  }

  lemma {:induction false} ArrivedSizeEmpty(chunks: seq<seq<Byte>>, k: nat)
    requires k <= |chunks|
    ensures ArrivedSize(chunks, {}, k) == 0
  {
    if k > 0 {
      ArrivedSizeEmpty(chunks, k - 1);
    }
  }

  lemma StagingForCarried(env: Env, chunks: seq<seq<Byte>>, demSize: int, m: string, arrived: set<int>,
                          s: Store, r: Request)
    requires Carries(env, chunks, demSize, m, r) && !All(arrived, |chunks|)
    requires Progress(env, chunks, demSize, m, arrived, s)
    ensures StagingFor(s, r).Some? && Staged(env, chunks, demSize, arrived, StagingFor(s, r).value)
  {
    ArrivedSizeEmpty(chunks, |chunks|);
  }

  lemma FinishStores(env: Env, chunks: seq<seq<Byte>>, demSize: int, m: string, s: Store, g: Staging)
    requires Uploadable(env, chunks, demSize) && m !in s.byMatch
    requires g.total == |chunks| && g.demSize == demSize && g.sha in {"", env.sha256(Concat(chunks))}
    requires Assemble(g.chunks, 0, g.total) == Concat(chunks)
    ensures var (result, s') := Finish(env, s, m, g);
            && result.Complete? && s'.staging == s.staging && m in s'.byMatch
            && s'.byMatch[m].bytes == Concat(chunks) && s'.byMatch[m].sha == env.sha256(Concat(chunks))
  {
  }

  /** What one carried chunk does: the last missing one completes, later ones are duplicates, none is rejected. */
  ghost predicate StepsTo(env: Env, chunks: seq<seq<Byte>>, demSize: int, m: string, arrived: set<int>,
                          arrived': set<int>, result: Result, s': Store)
  {
    && Progress(env, chunks, demSize, m, arrived', s')
    && (result.Complete? <==> !All(arrived, |chunks|) && All(arrived', |chunks|))
    && (result.Duplicate? <==> All(arrived, |chunks|))
    && !result.Rejected?
  }

  /** Staging one more chunk keeps the books. */
  lemma StagedOneMore(env: Env, chunks: seq<seq<Byte>>, demSize: int, arrived: set<int>, g: Staging, index: int)
    requires Uploadable(env, chunks, demSize) && 0 <= index < |chunks| && index !in arrived
    requires Within(arrived, |chunks|) && Staged(env, chunks, demSize, arrived, g)
    ensures var g' := g.(chunks := g.chunks[index := chunks[index]], bytes := g.bytes + |chunks[index]|);
            && Staged(env, chunks, demSize, arrived + {index}, g')
            && g'.bytes <= MAX_UPLOAD
            && (|g'.chunks| == |chunks| <==> All(arrived + {index}, |chunks|)) && |g'.chunks| <= |chunks|
  {
    var now, chunk := arrived + {index}, chunks[index];
    var g' := g.(chunks := g.chunks[index := chunk], bytes := g.bytes + |chunk|);
    ArrivedSizeAdd(chunks, arrived, index, |chunks|);
    ArrivedSizeBound(chunks, now, |chunks|);
    assert chunks[..|chunks|] == chunks;
    assert g'.chunks.Keys == now;
    assert |g'.chunks| == |g'.chunks.Keys|;
    CompleteIff(now, |chunks|);
  }

  lemma LastChunkStep(env: Env, chunks: seq<seq<Byte>>, demSize: int, m: string, arrived: set<int>,
                      s: Store, g: Staging)
    requires Uploadable(env, chunks, demSize) && m !in s.byMatch
    requires Within(arrived, |chunks|) && All(arrived, |chunks|) && Staged(env, chunks, demSize, arrived, g)
    ensures var (result, s') := Finish(env, s.(staging := s.staging - {m}), m, g);
            result.Complete? && Progress(env, chunks, demSize, m, arrived, s')
  {
    AssembleAll(chunks, g.chunks, 0);
    assert chunks[0..] == chunks;
    FinishStores(env, chunks, demSize, m, s.(staging := s.staging - {m}), g);
  }

  lemma NewChunkStep(env: Env, chunks: seq<seq<Byte>>, demSize: int, m: string, arrived: set<int>,
                     s: Store, g: Staging, index: int)
    requires Uploadable(env, chunks, demSize) && 0 <= index < |chunks| && index !in arrived
    requires Within(arrived, |chunks|)
    requires m !in s.byMatch && Staged(env, chunks, demSize, arrived, g)
    ensures var (result, s') := Place(env, s, m, g, index, chunks[index]);
            StepsTo(env, chunks, demSize, m, arrived, arrived + {index}, result, s')
  {
    var now := arrived + {index};
    var g' := g.(chunks := g.chunks[index := chunks[index]], bytes := g.bytes + |chunks[index]|);
    StagedOneMore(env, chunks, demSize, arrived, g, index);
    assert index in now && !All(arrived, |chunks|);
    if All(now, |chunks|) {
      LastChunkStep(env, chunks, demSize, m, now, s, g');
    } else {
      assert Place(env, s, m, g, index, chunks[index])
          == (Received(|g'.chunks|), s.(staging := s.staging[m := g']));
    }
  }

  lemma RepeatedChunkStep(env: Env, chunks: seq<seq<Byte>>, demSize: int, m: string, arrived: set<int>,
                          s: Store, g: Staging, index: int)
    requires index in arrived && Within(arrived, |chunks|) && !All(arrived, |chunks|)
    requires m !in s.byMatch && Staged(env, chunks, demSize, arrived, g)
    ensures var (result, s') := Place(env, s, m, g, index, chunks[index]);
            StepsTo(env, chunks, demSize, m, arrived, arrived, result, s')
  {
  }

  lemma CarriedStep(env: Env, chunks: seq<seq<Byte>>, demSize: int, m: string, arrived: set<int>,
                    s: Store, r: Request)
    requires Uploadable(env, chunks, demSize) && Carries(env, chunks, demSize, m, r)
    requires Progress(env, chunks, demSize, m, arrived, s)
    ensures var (result, s') := Submit(env, s, r);
            StepsTo(env, chunks, demSize, m, arrived, arrived + {r.index}, result, s')
  {
    CarriedIsScreened(env, chunks, demSize, m, s, r);
    if r.index in arrived {
      assert arrived + {r.index} == arrived;
    }
    if !All(arrived, |chunks|) {
      StagingForCarried(env, chunks, demSize, m, arrived, s, r);
      var g := StagingFor(s, r).value;
      if r.index in arrived {
        RepeatedChunkStep(env, chunks, demSize, m, arrived, s, g, r.index);
      } else {
        NewChunkStep(env, chunks, demSize, m, arrived, s, g, r.index);
      }
    }
  }

  lemma CarriedIsScreened(env: Env, chunks: seq<seq<Byte>>, demSize: int, m: string, s: Store, r: Request)
    requires Uploadable(env, chunks, demSize) && Carries(env, chunks, demSize, m, r)
    ensures Screen(env, s, r).None?
  {
  }

  lemma {:induction false} RunProgress(env: Env, chunks: seq<seq<Byte>>, demSize: int, m: string,
                                       s: Store, requests: seq<Request>)
    requires Uploadable(env, chunks, demSize) && Arrivals(env, chunks, demSize, m, requests)
    requires m !in s.byMatch && m !in s.staging
    ensures Progress(env, chunks, demSize, m, Arrived(m, requests), RunFrom(env, s, requests))
  {
    if requests == [] {
      assert 0 !in Arrived(m, requests);
    } else {
      var front, r := requests[..|requests| - 1], requests[|requests| - 1];
      RunProgress(env, chunks, demSize, m, s, front);
      ArrivedLast(m, requests);
      StepProgress(env, chunks, demSize, m, Arrived(m, front), RunFrom(env, s, front), r);
    }
  }

  /** The chunk index a request brings to the match, if any. */
  function Brings(m: string, r: Request): (s: set<int>) {
    if TrimSpace(r.matchID) == m then {r.index} else {}
  }

  lemma StepProgress(env: Env, chunks: seq<seq<Byte>>, demSize: int, m: string, arrived: set<int>, s: Store, r: Request)
    requires Uploadable(env, chunks, demSize) && Progress(env, chunks, demSize, m, arrived, s)
    requires TrimSpace(r.matchID) != m || Carries(env, chunks, demSize, m, r)
    ensures Progress(env, chunks, demSize, m, arrived + Brings(m, r), Submit(env, s, r).1)
  {
    if TrimSpace(r.matchID) == m {
      CarriedStep(env, chunks, demSize, m, arrived, s, r);
    } else {
      OtherMatchUntouched(env, s, r, m);
      ProgressFrame(env, chunks, demSize, m, arrived, s, Submit(env, s, r).1);
      assert arrived + Brings(m, r) == arrived;
    }
  }

  lemma ProgressFrame(env: Env, chunks: seq<seq<Byte>>, demSize: int, m: string, arrived: set<int>, s: Store, s': Store)
    requires Progress(env, chunks, demSize, m, arrived, s) && SameFor(s, s', m)
    ensures Progress(env, chunks, demSize, m, arrived, s')
  {
  }

  lemma ArrivedLast(m: string, requests: seq<Request>)
    requires requests != []
    ensures Arrived(m, requests) == Arrived(m, requests[..|requests| - 1]) + Brings(m, requests[|requests| - 1])
  {
    var n := |requests| - 1;
    assert forall k :: 0 <= k < n ==> requests[..n][k] == requests[k];
  }

  /** One arrival among any others: duplicate once all chunks are there, complete if it brings the last. */
  lemma UploadVerdict(env: Env, chunks: seq<seq<Byte>>, demSize: int, m: string, s: Store, requests: seq<Request>,
                      k: nat)
    requires Uploadable(env, chunks, demSize) && Arrivals(env, chunks, demSize, m, requests)
    requires m !in s.byMatch && m !in s.staging
    requires k < |requests| && TrimSpace(requests[k].matchID) == m
    ensures var result := Submit(env, RunFrom(env, s, requests[..k]), requests[k]).0;
            && (result.Complete? <==> && !All(Arrived(m, requests[..k]), |chunks|)
                                      && All(Arrived(m, requests[..k + 1]), |chunks|))
            && (result.Duplicate? <==> All(Arrived(m, requests[..k]), |chunks|))
            && !result.Rejected?
  {
    RunProgress(env, chunks, demSize, m, s, requests[..k]);
    CarriedStep(env, chunks, demSize, m, Arrived(m, requests[..k]), RunFrom(env, s, requests[..k]), requests[k]);
    assert requests[..k + 1][..k] == requests[..k];
    ArrivedLast(m, requests[..k + 1]);
  }

  /**
   * Whatever the arrival order, the repeats and the traffic of other matches: the
   * request that brings the last missing chunk completes, every later one is a
   * duplicate, none is rejected, and the stored octets are the file.
   */
  lemma UploadIsOrderIndependent(env: Env, chunks: seq<seq<Byte>>, demSize: int, m: string,
                                 s: Store, requests: seq<Request>, k: nat)
    requires Uploadable(env, chunks, demSize) && Arrivals(env, chunks, demSize, m, requests)
    requires m !in s.byMatch && m !in s.staging
    requires k < |requests| && TrimSpace(requests[k].matchID) == m
    ensures var result := Submit(env, RunFrom(env, s, requests[..k]), requests[k]).0;
            && (result.Complete? <==> && !All(Arrived(m, requests[..k]), |chunks|)
                                      && All(Arrived(m, requests[..k + 1]), |chunks|))
            && (result.Duplicate? <==> All(Arrived(m, requests[..k]), |chunks|))
            && !result.Rejected?
    ensures var s' := RunFrom(env, s, requests);
            && (m in s'.byMatch <==> All(Arrived(m, requests), |chunks|))
            && (m in s'.byMatch ==> s'.byMatch[m].bytes == Concat(chunks))
  {
    RunProgress(env, chunks, demSize, m, s, requests);
    UploadVerdict(env, chunks, demSize, m, s, requests, k);
  }

  lemma {:induction false} ArrivedMonotone(m: string, requests: seq<Request>, i: nat, j: nat)
    requires i <= j <= |requests|
    ensures Arrived(m, requests[..i]) <= Arrived(m, requests[..j])
  {
    forall x | x in Arrived(m, requests[..i])
      ensures x in Arrived(m, requests[..j])
    {
      var k :| 0 <= k < i && TrimSpace(requests[..i][k].matchID) == m && requests[..i][k].index == x;
      assert requests[..j][k] == requests[..i][k];
    }
  }

  /** At most one request of a run is answered as the completion. */
  lemma CompletesOnce(env: Env, chunks: seq<seq<Byte>>, demSize: int, m: string,
                      s: Store, requests: seq<Request>, i: nat, j: nat)
    requires Uploadable(env, chunks, demSize) && Arrivals(env, chunks, demSize, m, requests)
    requires m !in s.byMatch && m !in s.staging
    requires i < j < |requests| && TrimSpace(requests[i].matchID) == m == TrimSpace(requests[j].matchID)
    requires Submit(env, RunFrom(env, s, requests[..i]), requests[i]).0.Complete?
    ensures Submit(env, RunFrom(env, s, requests[..j]), requests[j]).0.Duplicate?
  {
    UploadIsOrderIndependent(env, chunks, demSize, m, s, requests, i);
    UploadIsOrderIndependent(env, chunks, demSize, m, s, requests, j);
    ArrivedMonotone(m, requests, i + 1, j);
    RunProgress(env, chunks, demSize, m, s, requests[..j]);
  }

  // ----- the service -----

  class DemService {
    const env: Env
    var staging: map<string, Staging>
    var byMatch: map<string, Record>
    var byReplay: map<string, string>

    constructor (env: Env)
      ensures this.env == env && View() == Store(map[], map[], map[])
    {
      this.env := env;
      staging, byMatch, byReplay := map[], map[], map[];
    }

    function View(): (s: Store)
      reads this
    {
      Store(staging, byMatch, byReplay)
    }

    /** The assembly loop. */
    static method AssembleInOrder(g: Staging) returns (assembled: seq<Byte>)
      requires g.total >= 0
      ensures assembled == Assemble(g.chunks, 0, g.total)
    {
      assembled := [];
      for index := 0 to g.total
        invariant assembled + Assemble(g.chunks, index, g.total) == Assemble(g.chunks, 0, g.total)
      {
        assembled := assembled + if index in g.chunks then g.chunks[index] else [];
      }
    }

    method FinishUpload(m: string, g: Staging) returns (result: Result)
      requires g.total >= 0 && m !in byMatch
      modifies this
      ensures (result, View()) == Finish(env, old(View()), m, g)
    {
      var assembled := AssembleInOrder(g);
      if g.demSize != 0 && |assembled| != g.demSize {
        return Rejected(SizeMismatch);
      }
      var actual := env.sha256(assembled);
      if g.sha != "" && actual != g.sha {
        return Rejected(Sha256Mismatch);
      }
      var summary := ParseHeader(env, assembled);
      if summary.None? {
        return Rejected(HeaderInvalid);
      }
      var record := Record(m, FirstNonEmpty(g.replayID, summary.value.matchID), actual, summary.value, assembled);
      byMatch := byMatch[m := record];
      if record.replayID != "" {
        byReplay := byReplay[record.replayID := m];
      }
      result := Complete(record.replayID);
    }

    method PlaceChunk(m: string, staged: Staging, index: int, chunk: seq<Byte>) returns (result: Result)
      requires staged.total >= 0 && m !in byMatch
      modifies this
      ensures (result, View()) == Place(env, old(View()), m, staged, index, chunk)
    {
      var g := staged;
      if index in g.chunks {
        staging := staging[m := g];
        return if g.chunks[index] != chunk then Rejected(ChunkConflict) else Received(|g.chunks|);
      }
      g := g.(chunks := g.chunks[index := chunk], bytes := g.bytes + |chunk|);
      if g.bytes > MAX_UPLOAD {
        staging := staging - {m};
        return Rejected(TooLarge);
      }
      if |g.chunks| < g.total {
        staging := staging[m := g];
        return Received(|g.chunks|);
      }
      staging := staging - {m};
      result := FinishUpload(m, g);
    }

    method SubmitChunk(r: Request) returns (result: Result)
      modifies this
      ensures (result, View()) == Submit(env, old(View()), r)
    {
      var m := TrimSpace(r.matchID);
      var bad := Screen(env, View(), r);
      if bad.Some? {
        return Rejected(bad.value);
      }
      if m in byMatch {
        return Duplicate(FirstNonEmpty(TrimSpace(r.replayID), byMatch[m].replayID));
      }
      var staged := StagingFor(View(), r);
      if staged.None? {
        return Rejected(MetadataConflict);
      }
      result := PlaceChunk(m, staged.value, r.index, r.chunk.value);
    }
  }
}
