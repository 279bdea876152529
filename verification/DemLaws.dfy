/** What a .dem upload stores and refuses, whatever is sent: nothing enters the store that was not declared and sent. */
module DemLaws {
  import opened Bytes
  import opened Text
  import opened DemUpload

  // ----- where a stored file comes from -----

  /** Some request brought this chunk of the match, under these declarations, and its own digest held. */
  ghost predicate Sent(env: Env, requests: seq<Request>, m: string, index: int, chunk: seq<Byte>, demSize: int,
                       total: int)
  {
    exists j :: 0 <= j < |requests| && var r := requests[j];
      && TrimSpace(r.matchID) == m && r.index == index && r.chunk == Some(chunk)
      && r.demSize == demSize && r.total == total && (Digest(r.md5) == "" || env.md5(chunk) == Digest(r.md5))
  }

  /** Some request opened an upload of the match with these declarations. */
  ghost predicate Opened(requests: seq<Request>, m: string, demSize: int, total: int, sha: string) {
    exists j :: 0 <= j < |requests| && var r := requests[j];
      && TrimSpace(r.matchID) == m && r.demSize == demSize && r.total == total && Digest(r.sha) == sha
  }

  /** A staged upload holds chunks that were sent, under the declarations that opened it. */
  ghost predicate StagedAsSent(env: Env, requests: seq<Request>, m: string, g: Staging) {
    && 1 <= g.total && Opened(requests, m, g.demSize, g.total, g.sha)
    && (forall k :: k in g.chunks ==> 0 <= k < g.total && Sent(env, requests, m, k, g.chunks[k], g.demSize, g.total))
  }

  /** A stored file was put together in order from sent chunks, and keeps what its opening declared. */
  ghost predicate StoredAsSent(env: Env, requests: seq<Request>, m: string, record: Record) {
    && record.matchID == m && record.sha == env.sha256(record.bytes)
    && ParseHeader(env, record.bytes) == Some(record.summary)
    && exists g: Staging ::
         && StagedAsSent(env, requests, m, g) && (forall k :: 0 <= k < g.total ==> k in g.chunks)
         && record.bytes == Assemble(g.chunks, 0, g.total)
         && g.demSize in {0, |record.bytes|} && g.sha in {"", record.sha}
  }

  ghost predicate AsSent(env: Env, requests: seq<Request>, s: Store) {
    && (forall m :: m in s.staging ==>
          StagedAsSent(env, requests, m, s.staging[m]) && |s.staging[m].chunks| < s.staging[m].total)
    && (forall m :: m in s.byMatch ==> StoredAsSent(env, requests, m, s.byMatch[m]))
  }

  lemma SentLater(env: Env, requests: seq<Request>, last: Request, m: string, g: Staging)
    requires StagedAsSent(env, requests, m, g)
    ensures StagedAsSent(env, requests + [last], m, g)
  {
    var all := requests + [last];
    assert forall j :: 0 <= j < |requests| ==> all[j] == requests[j];
    forall k | k in g.chunks
      ensures Sent(env, all, m, k, g.chunks[k], g.demSize, g.total)
    {
      assert Sent(env, requests, m, k, g.chunks[k], g.demSize, g.total);
    }
  }

  lemma StoredLater(env: Env, requests: seq<Request>, last: Request, m: string, record: Record)
    requires StoredAsSent(env, requests, m, record)
    ensures StoredAsSent(env, requests + [last], m, record)
  {
    var g :| StagedAsSent(env, requests, m, g) && (forall k :: 0 <= k < g.total ==> k in g.chunks)
             && record.bytes == Assemble(g.chunks, 0, g.total)
             && g.demSize in {0, |record.bytes|} && g.sha in {"", record.sha};
    SentLater(env, requests, last, m, g);
  }

  lemma OpenedBy(env: Env, all: seq<Request>, m: string, g: Staging)
    requires all != [] && var r := all[|all| - 1];
             TrimSpace(r.matchID) == m && r.demSize == g.demSize && r.total == g.total && Digest(r.sha) == g.sha
    requires 1 <= g.total && g.chunks == map[]
    ensures StagedAsSent(env, all, m, g)
  {
    assert Opened(all, m, g.demSize, g.total, g.sha);
  }

  /** What a request works on: the staging of its match under any name, or a fresh one. */
  lemma StagingCases(s: Store, r: Request)
    requires StagingFor(s, r).Some?
    ensures var (m, g) := (TrimSpace(r.matchID), StagingFor(s, r).value);
            && g.total == r.total && g.demSize == r.demSize
            && (m in s.staging ==>
                  g == s.staging[m].(replayID := if s.staging[m].replayID != "" then s.staging[m].replayID
                                                 else TrimSpace(r.replayID)))
            && (m !in s.staging ==>
                  g.sha == Digest(r.sha) && g.chunks == map[] && g.bytes == 0 && g.replayID == TrimSpace(r.replayID))
  {
  }

  /** It holds what was sent, this request included. */
  lemma StagingIsSent(env: Env, requests: seq<Request>, s: Store, last: Request)
    requires AsSent(env, requests, s) && 1 <= last.total && StagingFor(s, last).Some?
    ensures var g := StagingFor(s, last).value;
            StagedAsSent(env, requests + [last], TrimSpace(last.matchID), g) && |g.chunks| < g.total
  {
    var m, all := TrimSpace(last.matchID), requests + [last];
    var g := StagingFor(s, last).value;
    StagingCases(s, last);
    if m in s.staging {
      SentLater(env, requests, last, m, s.staging[m]);
      SentUnderAnyName(env, all, m, s.staging[m], g);
    } else {
      OpenedBy(env, all, m, g);
    }
  }

  lemma SentUnderAnyName(env: Env, requests: seq<Request>, m: string, g: Staging, g': Staging)
    requires StagedAsSent(env, requests, m, g) && g' == g.(replayID := g'.replayID)
    ensures StagedAsSent(env, requests, m, g')
  {
  }

  lemma OneMoreSent(env: Env, all: seq<Request>, r: Request, m: string, g: Staging)
    requires StagedAsSent(env, all, m, g) && all != [] && r == all[|all| - 1]
    requires TrimSpace(r.matchID) == m && r.chunk.Some? && 0 <= r.index < r.total
    requires r.demSize == g.demSize && r.total == g.total
    requires Digest(r.md5) == "" || env.md5(r.chunk.value) == Digest(r.md5)
    ensures StagedAsSent(env, all, m, g.(chunks := g.chunks[r.index := r.chunk.value],
                                         bytes := g.bytes + |r.chunk.value|))
  {
    assert Sent(env, all, m, r.index, r.chunk.value, g.demSize, g.total);
  }

  /** Keys below a bound, as many as the bound: every key. */
  lemma AllThere(chunks: map<int, seq<Byte>>, total: int)
    requires total >= 0 && |chunks| >= total && forall k :: k in chunks ==> 0 <= k < total
    ensures forall k :: 0 <= k < total ==> k in chunks
  {
    assert |chunks.Keys| == |chunks|;
    CompleteIff(chunks.Keys, total);
  }

  lemma FinishAsSent(env: Env, requests: seq<Request>, s: Store, m: string, g: Staging)
    requires AsSent(env, requests, s) && StagedAsSent(env, requests, m, g) && |g.chunks| >= g.total
    ensures AsSent(env, requests, Finish(env, s, m, g).1)
  {
    AllThere(g.chunks, g.total);
    var (result, s') := Finish(env, s, m, g);
    if result.Complete? && m !in s.byMatch {
      assert StoredAsSent(env, requests, m, s'.byMatch[m]);
    }
  }

  lemma AllLater(env: Env, requests: seq<Request>, s: Store, last: Request)
    requires AsSent(env, requests, s)
    ensures AsSent(env, requests + [last], s)
  {
    forall m | m in s.staging
      ensures StagedAsSent(env, requests + [last], m, s.staging[m])
    {
      SentLater(env, requests, last, m, s.staging[m]);
    }
    forall m | m in s.byMatch
      ensures StoredAsSent(env, requests + [last], m, s.byMatch[m])
    {
      StoredLater(env, requests, last, m, s.byMatch[m]);
    }
  }

  lemma StepAsSent(env: Env, requests: seq<Request>, s: Store, last: Request)
    requires AsSent(env, requests, s)
    ensures AsSent(env, requests + [last], Submit(env, s, last).1)
  {
    var m := TrimSpace(last.matchID);
    AllLater(env, requests, s, last);
    if Screen(env, s, last).None? && m !in s.byMatch && StagingFor(s, last).Some? {
      StagingIsSent(env, requests, s, last);
      StagingCases(s, last);
      PlaceAsSent(env, requests + [last], s, m, StagingFor(s, last).value, last);
    }
  }

  lemma PlaceAsSent(env: Env, all: seq<Request>, s: Store, m: string, g: Staging, r: Request)
    requires AsSent(env, all, s) && StagedAsSent(env, all, m, g) && |g.chunks| < g.total
    requires all != [] && r == all[|all| - 1] && TrimSpace(r.matchID) == m && r.chunk.Some? && 0 <= r.index < r.total
    requires r.demSize == g.demSize && r.total == g.total
    requires Digest(r.md5) == "" || env.md5(r.chunk.value) == Digest(r.md5)
    ensures AsSent(env, all, Place(env, s, m, g, r.index, r.chunk.value).1)
  {
    var g' := g.(chunks := g.chunks[r.index := r.chunk.value], bytes := g.bytes + |r.chunk.value|);
    if r.index in g.chunks {
      StageAsSent(env, all, s, m, g);
    } else {
      OneMoreSent(env, all, r, m, g);
      if g'.bytes <= MAX_UPLOAD && |g'.chunks| < g.total {
        StageAsSent(env, all, s, m, g');
      } else {
        UnstagedAsSent(env, all, s, m);
        if g'.bytes <= MAX_UPLOAD {
          FinishAsSent(env, all, s.(staging := s.staging - {m}), m, g');
        }
      }
    }
  }

  lemma StageAsSent(env: Env, all: seq<Request>, s: Store, m: string, g: Staging)
    requires AsSent(env, all, s) && StagedAsSent(env, all, m, g) && |g.chunks| < g.total
    ensures AsSent(env, all, s.(staging := s.staging[m := g]))
  {
  }

  lemma UnstagedAsSent(env: Env, all: seq<Request>, s: Store, m: string)
    requires AsSent(env, all, s)
    ensures AsSent(env, all, s.(staging := s.staging - {m}))
  {
  }

  /**
   * Over every run: what is staged or stored was sent, chunk by chunk, with digests that held; and a stored
   * file has the size and the digest its upload was opened with, if it was opened with any.
   */
  lemma {:induction false} RunAsSent(env: Env, requests: seq<Request>)
    ensures AsSent(env, requests, RunFrom(env, Store(map[], map[], map[]), requests))
  {
    if requests != [] {
      var front, last := requests[..|requests| - 1], requests[|requests| - 1];
      assert front + [last] == requests;
      RunAsSent(env, front);
      StepAsSent(env, front, RunFrom(env, Store(map[], map[], map[]), front), last);
    }
  }

  // ----- what is refused -----

  /** The tests before any staging, each with its own condition. */
  lemma ScreenRules(env: Env, s: Store, r: Request)
    requires TrimSpace(r.matchID) !in s.byMatch
    ensures var bounds := TrimSpace(r.matchID) != "" && 0 <= r.index < r.total <= 1048576
                          && 0 <= r.demSize <= 268435456;
            var (reply, s') := Submit(env, s, r);
            && (reply == Rejected(InvalidRequest) <==> !bounds)
            && (reply == Rejected(InvalidBase64) <==> bounds && r.chunk.None?)
            && (bounds && r.chunk.Some? && Digest(r.md5) != "" && env.md5(r.chunk.value) != Digest(r.md5) ==>
                  reply.Rejected? && s' == s)
            && (bounds && r.chunk == Some([]) && r.demSize != 0 ==> reply == Rejected(EmptyChunk) && s' == s)
            && (!bounds || r.chunk.None? ==> s' == s)
  {
  }

  /** A match that has its file takes no other, and answers with the name of the request or else of the file. */
  lemma StoredAnswers(env: Env, s: Store, r: Request)
    requires TrimSpace(r.matchID) in s.byMatch && TrimSpace(r.matchID) != ""
    requires 0 <= r.index < r.total <= 1048576 && 0 <= r.demSize <= 268435456
    ensures Submit(env, s, r) ==
              (Duplicate(if TrimSpace(r.replayID) != "" then TrimSpace(r.replayID)
                         else s.byMatch[TrimSpace(r.matchID)].replayID), s)
  {
  }

  /** A file of another size than declared, or of another digest than its opening declared, is never stored. */
  lemma FinishStoresIff(env: Env, s: Store, m: string, g: Staging)
    requires g.total >= 0 && m !in s.byMatch
    ensures var file := Assemble(g.chunks, 0, g.total);
            var (reply, s') := Finish(env, s, m, g);
            && (reply.Complete? <==> g.demSize in {0, |file|} && g.sha in {"", env.sha256(file)}
                                     && ParseHeader(env, file).Some?)
            && (!reply.Complete? ==> reply.Rejected? && s' == s)
            && (reply.Complete? ==>
                  && s'.staging == s.staging && s'.byMatch == s.byMatch[m := s'.byMatch[m]]
                  && s'.byMatch[m].bytes == file && s'.byMatch[m].summary == ParseHeader(env, file).value
                  && s'.byMatch[m].replayID == reply.replayID
                  && reply.replayID == (if g.replayID != "" then g.replayID else s'.byMatch[m].summary.matchID)
                  && (reply.replayID != "" ==> s'.byReplay == s.byReplay[reply.replayID := m])
                  && (reply.replayID == "" ==> s'.byReplay == s.byReplay))
  {
  }

  /** An upload under way refuses another size, number of chunks or digest, and other octets for a chunk. */
  lemma ConflictsKeepUpload(env: Env, s: Store, r: Request)
    requires Screen(env, s, r).None? && TrimSpace(r.matchID) in s.staging && TrimSpace(r.matchID) !in s.byMatch
    ensures var g := s.staging[TrimSpace(r.matchID)];
            var (reply, s') := Submit(env, s, r);
            var meta := r.total == g.total && r.demSize == g.demSize
                        && (g.sha == "" || Digest(r.sha) == "" || Digest(r.sha) == g.sha);
            && (reply == Rejected(MetadataConflict) <==> !meta)
            && (!meta ==> s' == s)
            && (meta && r.index in g.chunks ==>
                  && reply == (if r.chunk == Some(g.chunks[r.index]) then Received(|g.chunks|)
                               else Rejected(ChunkConflict))
                  && s'.byMatch == s.byMatch && s'.byReplay == s.byReplay
                  && TrimSpace(r.matchID) in s'.staging
                  && s'.staging[TrimSpace(r.matchID)] == g.(replayID := s'.staging[TrimSpace(r.matchID)].replayID))
  {
  }

  function Number(a: int, b: int, c: int, d: int): (n: int) { a + 256 * b + 65536 * c + 16777216 * d }

  /** A header is read exactly behind the magic and a little-endian length that fits the file. */
  lemma HeaderIff(env: Env, b: seq<Byte>)
    ensures var n := if |b| >= 12 then Number(b[8], b[9], b[10], b[11]) else 0;
            && (ParseHeader(env, b).Some? <==>
                  |b| >= 12 && b[..8] == MAGIC && 0 < n <= |b| - 12 && env.json(b[12..12 + n]).Some?)
            && (ParseHeader(env, b).Some? ==> ParseHeader(env, b) == env.json(b[12..12 + n]))
  {
    if |b| >= 12 {
      LengthOfFour(b[8..12]);
    }
  }

  lemma LengthOfFour(b: seq<Byte>)
    requires |b| == 4
    ensures LittleEndian(b) == Number(b[0], b[1], b[2], b[3])
  {
    var one, two, three := b[3..], b[2..], b[1..];
    assert one[1..] == [] && two[1..] == one && three[1..] == two;
    assert LittleEndian(one) == b[3] as int && LittleEndian(two) == b[2] as int + 256 * (b[3] as int);
  }

  // ----- a digest that comes late -----

  /** The request brings the last missing chunk of a file that is all right but for the digest it declares. */
  ghost predicate LastButWrong(env: Env, s: Store, r: Request) {
    && Screen(env, s, r).None? && TrimSpace(r.matchID) !in s.byMatch && StagingFor(s, r).Some?
    && var g := StagingFor(s, r).value;
       && g.total >= 0 && r.index !in g.chunks && |g.chunks| + 1 >= g.total && r.chunk.Some?
       && g.bytes + |r.chunk.value| <= MAX_UPLOAD
       && var file := Assemble(g.chunks[r.index := r.chunk.value], 0, g.total);
          && g.demSize in {0, |file|} && ParseHeader(env, file).Some?
          && Digest(r.sha) != "" && Digest(r.sha) != env.sha256(file)
  }

  /** A wrong digest goes through exactly if the upload was opened without one. */
  lemma WrongDigestStoredIff(env: Env, s: Store, r: Request)
    requires LastButWrong(env, s, r)
    ensures var (reply, s') := Submit(env, s, r);
            var m := TrimSpace(r.matchID);
            && (reply.Complete? <==> m in s.staging && s.staging[m].sha == "")
            && (reply.Complete? ==> m in s'.byMatch && s'.byMatch[m].sha != Digest(r.sha))
  {
  }

  /** It happens: the header first, without a digest, then the rest under a wrong one. */
  lemma WrongDigestStored()
    ensures var env := Env(b => "", b => "true", b => Some(Summary("", "", "", 0, 0)));
            var first := Request("m", "r", 0, "", 0, 2, "", Some(MAGIC));
            var second := Request("m", "r", 0, "wrong", 1, 2, "", Some([1, 0, 0, 0, 7]));
            var staged := Submit(env, Store(map[], map[], map[]), first).1;
            && LastButWrong(env, staged, second) && Submit(env, staged, second).0.Complete?
  {
    var env := Env(b => "", b => "true", b => Some(Summary("", "", "", 0, 0)));
    var first := Request("m", "r", 0, "", 0, 2, "", Some(MAGIC));
    var second := Request("m", "r", 0, "wrong", 1, 2, "", Some([1, 0, 0, 0, 7]));
    TrimSpaceFixed("m");
    TrimSpaceFixed("r");
    TrimSpaceFixed("wrong");
    assert Digest("") == "" && Digest("wrong")[0] == 'w' && |Digest("wrong")| == 5;
    var staged := Submit(env, Store(map[], map[], map[]), first).1;
    var chunks := map[0 := MAGIC];
    assert staged.staging == map["m" := Staging("r", 0, "", 2, chunks, 8)];
    WholeFile(env, chunks[1 := [1, 0, 0, 0, 7]]);
    assert |"true"| == 4;
    WrongDigestStoredIff(env, staged, second);
  }

  lemma WholeFile(env: Env, chunks: map<int, seq<Byte>>)
    requires chunks == map[0 := MAGIC, 1 := [1, 0, 0, 0, 7]] && env.json([7]).Some?
    ensures ParseHeader(env, Assemble(chunks, 0, 2)).Some?
  {
    var file := Assemble(chunks, 0, 2);
    TwoChunks(chunks);
    assert file[..8] == MAGIC && file[12..13] == [7];
    HeaderIff(env, file);
  }

  lemma TwoChunks(chunks: map<int, seq<Byte>>)
    requires 0 in chunks && 1 in chunks
    ensures Assemble(chunks, 0, 2) == chunks[0] + chunks[1]
  {
    assert Assemble(chunks, 2, 2) == [];
    assert Assemble(chunks, 1, 2) == chunks[1];
  }
}
