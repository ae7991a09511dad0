/**
 Uploads under a storage quota (api/internal/httpapi/handlers_jobs.go:29-165, quota.go:12-22).
 The multipart reader and the store are given: a file part is a stream of chunks, any of
 which may come with an error, and storing it may fail.
 */
module Upload {
  import opened Wrappers
  import opened StorageUse

  const INT64 := 0x8000_0000_0000_0000

  type Int64 = x: int | -INT64 <= x < INT64

  /** Addition and subtraction of 64-bit integers wrap around. */
  function Wrap64(x: int): Int64 { (x + INT64) % (2 * INT64) - INT64 }

  datatype ReadError = NoError | Eof | TooBig | Broken | QuotaExceeded

  datatype Chunk = Chunk(bytes: nat, err: ReadError)

  function Head(source: seq<Chunk>): Chunk { if source == [] then Chunk(0, Eof) else source[0] }

  function Tail(source: seq<Chunk>): seq<Chunk> { if source == [] then [] else source[1..] }

  datatype Drained = Drained(bytes: nat, err: ReadError)

  /** Reads a stream to its end, or until the limit (0 is none) is passed. */
  function Drain(source: seq<Chunk>, n: nat, limit: int): Drained
    decreases |source|
  {
    var c := Head(source);
    if limit > 0 && n + c.bytes > limit then Drained(n + c.bytes, QuotaExceeded)
    else if c.err != NoError || source == [] then Drained(n + c.bytes, c.err)
    else Drain(source[1..], n + c.bytes, limit)
  }

  function Total(source: seq<Chunk>): nat { if source == [] then 0 else source[0].bytes + Total(source[1..]) }

  /** A stream that is read without error. */
  predicate Clean(source: seq<Chunk>) { forall i :: 0 <= i < |source| ==> source[i].err == NoError }

  /** A clean stream is read to its end exactly when its total is within the limit. */
  lemma {:induction false} DrainClean(source: seq<Chunk>, n: nat, limit: int)
    requires Clean(source)
    ensures Drain(source, n, limit).err == Eof <==> limit <= 0 || n + Total(source) <= limit
    ensures Drain(source, n, limit).err == Eof ==> Drain(source, n, limit).bytes == n + Total(source)
    ensures Drain(source, n, limit).err == Eof || Drain(source, n, limit).err == QuotaExceeded
    decreases |source|
  {
    if source != [] {
      DrainClean(source[1..], n + source[0].bytes, limit);
    }
  }

  /** How a stream is cut into chunks does not matter. */
  lemma ChunkingIrrelevant(a: seq<Chunk>, b: seq<Chunk>, limit: int)
    requires Clean(a) && Clean(b) && Total(a) == Total(b)
    ensures Drain(a, 0, limit).err == Eof <==> Drain(b, 0, limit).err == Eof
    ensures Drain(a, 0, limit).err == Eof ==> Drain(a, 0, limit) == Drain(b, 0, limit)
  {
    DrainClean(a, 0, limit);
    DrainClean(b, 0, limit);
  }

  /** A stream that ended without error stayed within the limit. */
  lemma {:induction false} DrainedWithin(source: seq<Chunk>, n: nat, limit: int)
    requires limit > 0 && Drain(source, n, limit).err == Eof
    ensures Drain(source, n, limit).bytes <= limit
    decreases |source|
  {
    if source != [] && source[0].err == NoError {
      DrainedWithin(source[1..], n + source[0].bytes, limit);
    }
  }

  class CountingReader {
    var source: seq<Chunk>
    var n: nat
    const limit: int
    var overQuota: bool

    constructor (source: seq<Chunk>, limit: int)
      ensures this.source == source && n == 0 && this.limit == limit && !overQuota
    {
      this.source, this.n, this.limit, this.overQuota := source, 0, limit, false;
    }

    method Read() returns (m: nat, err: ReadError)
      modifies this
      ensures m == Head(old(source)).bytes && source == Tail(old(source)) && n == old(n) + m
      ensures limit > 0 && n > limit ==> overQuota && err == QuotaExceeded
      ensures !(limit > 0 && n > limit) ==> overQuota == old(overQuota) && err == Head(old(source)).err
    {
      var c := Chunk(0, Eof);
      if source != [] {
        c, source := source[0], source[1..];
      }
      n := n + c.bytes;
      if limit > 0 && n > limit {
        overQuota := true;
        return c.bytes, QuotaExceeded;
      }
      return c.bytes, c.err;
    }
  }

  /** Stores what the reader delivers, like a copy into a file; `writeOk` is whether the writing itself works. */
  method Put(reader: CountingReader, writeOk: bool) returns (stored: nat, err: ReadError)
    requires reader.n == 0 && !reader.overQuota
    modifies reader
    ensures Drained(reader.n, err) == (var d := Drain(old(reader.source), 0, reader.limit);
                                       if d.err == Eof && !writeOk then d.(err := Broken) else d)
    ensures stored == reader.n
    ensures reader.overQuota ==> err != Eof
    ensures err == QuotaExceeded && CleanEnds(old(reader.source)) ==> reader.overQuota
    ensures reader.overQuota ==> Drain(old(reader.source), 0, reader.limit).err == QuotaExceeded
  {
    stored := 0;
    err := NoError;
    while err == NoError
      invariant stored == reader.n
      invariant err == NoError ==>
        && Drain(old(reader.source), 0, reader.limit) == Drain(reader.source, reader.n, reader.limit)
        && !reader.overQuota
        && (CleanEnds(old(reader.source)) ==> CleanEnds(reader.source))
      invariant err != NoError ==>
        && Drain(old(reader.source), 0, reader.limit) == Drained(reader.n, err)
        && (reader.overQuota ==> err == QuotaExceeded)
        && (err == QuotaExceeded && CleanEnds(old(reader.source)) ==> reader.overQuota)
      decreases if err == NoError then |reader.source| + 1 else 0
    {
      var m: nat;
      m, err := reader.Read();
      stored := stored + m;
    }
    if err == Eof && !writeOk {
      err := Broken;
    }
  }

  /** No source reports the quota error itself. */
  predicate CleanEnds(source: seq<Chunk>) { forall i :: 0 <= i < |source| ==> source[i].err != QuotaExceeded }

  datatype Part = Field | File(video: bool, source: seq<Chunk>, writeOk: bool) | Malformed

  datatype Reply = Created(size: nat) | OverQuota | TooLarge | BadRequest | ServerError

  predicate PartOk(p: Part) { p.File? ==> CleanEnds(p.source) }

  datatype Settings = Settings(enabled: bool, fallback: Int64)

  /** The limit in force: the user's own or the default, when quotas are on; 0 and less is none. */
  function LimitFor(settings: Option<Settings>, override: Option<Int64>): Option<Int64> {
    if settings.None? || !settings.value.enabled then None
    else
      var limit := if override.Some? then override.value else settings.value.fallback;
      if limit <= 0 then None else Some(limit)
  }

  /** What reading the parts comes to; the last file counts. */
  function ReadParts(parts: seq<Part>, limit: int, size: Option<nat>): Reply {
    if parts == [] then (if size.Some? then Created(size.value) else BadRequest)
    else match parts[0]
      case Malformed => TooLarge
      case Field => ReadParts(parts[1..], limit, size)
      case File(video, source, writeOk) =>
        var d := Drain(source, 0, limit);
        if !video then BadRequest
        else if d.err == QuotaExceeded then OverQuota
        else if d.err == TooBig then TooLarge
        else if d.err != Eof || !writeOk then ServerError
        else ReadParts(parts[1..], limit, Some(d.bytes))
  }

  /** The answer to an upload, given what the usage query said. */
  function Verdict(used: Int64, limit: Option<Int64>, contentLength: Int64, parts: seq<Part>, recorded: bool): Reply {
    var remaining := if limit.Some? then Wrap64(limit.value - used) else 0;
    var declaredOver := contentLength > 0 && limit.Some? && Wrap64(used + contentLength) > limit.value;
    if limit.Some? && (remaining <= 0 || declaredOver) then OverQuota
    else
      var r := ReadParts(parts, remaining, None);
      if r.Created? && !recorded then ServerError else r
  }

  /** What the handler takes as used: a query that fails, or a sum out of range, counts as nothing. */
  function UsedRead(limit: Option<Int64>, queryOk: bool, used: int): Int64 {
    if limit.Some? && queryOk && -INT64 <= used < INT64 then used else 0
  }

  class Uploads {
    var jobs: seq<JobRow>
    var results: seq<ResultRow>

    method HandleCreateJob(id: nat, user: UserId, settings: Option<Settings>, override: Option<Int64>, queryOk: bool,
                           contentLength: Int64, parts: seq<Part>, recorded: bool) returns (reply: Reply)
      requires forall i :: 0 <= i < |parts| ==> PartOk(parts[i])
      modifies this`jobs
      ensures
        var limit := LimitFor(settings, override);
        reply == Verdict(UsedRead(limit, queryOk, Used(old(jobs), results, user)), limit, contentLength, parts,
          recorded)
      ensures jobs == if reply.Created? then old(jobs) + [JobRow(id, user, reply.size, false)] else old(jobs)
    {
      var enforce, used, limit := false, 0, 0;
      if settings.Some? && settings.value.enabled {
        limit := if override.Some? then override.value else settings.value.fallback;
        enforce := limit > 0;
        if enforce && queryOk {
          var usedBytes := StorageUsedByUser(jobs, results, user);
          if -INT64 <= usedBytes < INT64 {
            used := usedBytes;
          }
        }
      }
      var remaining: Int64 := 0;
      if enforce {
        remaining := Wrap64(limit - used);
        if remaining <= 0 {
          return OverQuota;
        }
        if contentLength > 0 && Wrap64(used + contentLength) > limit {
          return OverQuota;
        }
      }
      reply := StoreParts(parts, remaining);
      if reply.Created? {
        if !recorded {
          return ServerError;
        }
        jobs := jobs + [JobRow(id, user, reply.size, false)];
      }
    }
  }

  method StoreParts(parts: seq<Part>, limit: int) returns (reply: Reply)
    requires forall i :: 0 <= i < |parts| ==> PartOk(parts[i])
    ensures reply == ReadParts(parts, limit, None)
  {
    var inputSize: Option<nat> := None;
    var n := 0;
    while n < |parts|
      invariant n <= |parts| && ReadParts(parts, limit, None) == ReadParts(parts[n..], limit, inputSize)
    {
      assert parts[n..][0] == parts[n] && parts[n..][1..] == parts[n + 1..];
      match parts[n] {
        case Malformed => return TooLarge;
        case Field =>
        case File(video, source, writeOk) =>
          assert PartOk(parts[n]);
          if !video {
            return BadRequest;
          }
          var reader := new CountingReader(source, limit);
          var stored, err := Put(reader, writeOk);
          if err != Eof {
            if reader.overQuota {
              return OverQuota;
            }
            if err == TooBig {
              return TooLarge;
            }
            return ServerError;
          }
          inputSize := Some(reader.n);
      }
      n := n + 1;
    }
    assert parts[n..] == [];
    reply := if inputSize.Some? then Created(inputSize.value) else BadRequest;
  }

  // ------------------------------------------------------------------------ quota

  /** Every file stored on the way stayed within what was left. */
  lemma {:induction false} PartsWithin(parts: seq<Part>, limit: int, size: Option<nat>)
    requires limit > 0 && ReadParts(parts, limit, size).Created? && (size.Some? ==> size.value <= limit)
    ensures ReadParts(parts, limit, size).size <= limit
    decreases |parts|
  {
    if parts != [] {
      match parts[0]
      case Field => PartsWithin(parts[1..], limit, size);
      case File(_, source, _) =>
        DrainedWithin(source, 0, limit);
        PartsWithin(parts[1..], limit, Some(Drain(source, 0, limit).bytes));
      case Malformed =>
    }
  }

  /** When the room left seems positive it is what is really left. */
  lemma WrapPositive(limit: Int64, used: Int64)
    requires limit > 0 && Wrap64(limit - used) > 0
    ensures Wrap64(limit - used) == limit - used
  {
  }

  /** What is accepted fits the room that the usage read leaves. */
  lemma AcceptedFits(used: Int64, limit: Int64, contentLength: Int64, parts: seq<Part>, recorded: bool)
    requires limit > 0 && Verdict(used, Some(limit), contentLength, parts, recorded).Created?
    ensures Verdict(used, Some(limit), contentLength, parts, recorded).size <= limit - used
    ensures Wrap64(limit - used) == limit - used > 0
  {
    WrapPositive(limit, used);
    PartsWithin(parts, Wrap64(limit - used), None);
  }

  /** One video of a given size, without a declared length. */
  function OneVideo(size: nat): seq<Part> { [File(true, [Chunk(size, NoError)], true)] }

  /** A video that takes all the room is accepted. */
  lemma WholeRoomAccepted(used: Int64, limit: Int64)
    requires limit > 0 && Wrap64(limit - used) > 0
    ensures Verdict(used, Some(limit), 0, OneVideo(Wrap64(limit - used)), true) == Created(Wrap64(limit - used))
  {
    var room := Wrap64(limit - used);
    var source := [Chunk(room, NoError)];
    DrainClean(source, 0, room);
    assert Total(source) == room;
    var parts := OneVideo(room);
    assert parts[1..] == [];
    assert Drain(source, 0, room).bytes == room;
    assert ReadParts(parts, room, None) == ReadParts([], room, Some(room));
  }

  /** Every upload accepted on this reading of the usage leaves the usage of these tables within the limit. */
  ghost predicate KeepsFrom(jobs: seq<JobRow>, results: seq<ResultRow>, id: nat, user: UserId, limit: Int64,
                            used: Int64)
  {
    forall contentLength: Int64, parts: seq<Part>, recorded: bool ::
      var reply := Verdict(used, Some(limit), contentLength, parts, recorded);
      reply.Created? ==> Used(jobs + [JobRow(id, user, reply.size, false)], results, user) <= limit
  }

  /**
   Whatever usage was read before, and whatever the tables have come to since: the quota is kept by
   every upload if and only if nothing is accepted or no more is stored than was read.
   */
  lemma KeptFromIff(jobs: seq<JobRow>, results: seq<ResultRow>, id: nat, user: UserId, limit: Int64, used: Int64)
    requires limit > 0 && forall k :: 0 <= k < |results| ==> results[k].job != id
    ensures KeepsFrom(jobs, results, id, user, limit, used)
       <==> Wrap64(limit - used) <= 0 || Used(jobs, results, user) <= used
  {
    hide Used, Verdict, Wrap64;
    var room := Wrap64(limit - used);
    if room <= 0 || Used(jobs, results, user) <= used {
      forall contentLength: Int64, parts: seq<Part>, recorded: bool
        ensures
          var reply := Verdict(used, Some(limit), contentLength, parts, recorded);
          reply.Created? ==> Used(jobs + [JobRow(id, user, reply.size, false)], results, user) <= limit
      {
        var reply := Verdict(used, Some(limit), contentLength, parts, recorded);
        if reply.Created? {
          AcceptedFits(used, limit, contentLength, parts, recorded);
          NewJobAdds(jobs, results, JobRow(id, user, reply.size, false), user);
        }
      }
    } else {
      WrapPositive(limit, used);
      WholeRoomAccepted(used, limit);
      NewJobAdds(jobs, results, JobRow(id, user, room, false), user);
      assert Verdict(used, Some(limit), 0, OneVideo(room), true) == Created(room);
    }
  }

  /**
   An accepted upload under a quota leaves the recorded usage within the limit, however the
   file was cut into chunks and whatever length was declared, when the tables have not changed
   since the usage was read.
   */
  lemma QuotaHolds(jobs: seq<JobRow>, results: seq<ResultRow>, id: nat, user: UserId, limit: Int64,
                   contentLength: Int64, parts: seq<Part>, recorded: bool)
    requires limit > 0 && -INT64 <= Used(jobs, results, user) < INT64
    requires forall k :: 0 <= k < |results| ==> results[k].job != id
    ensures
      var reply := Verdict(Used(jobs, results, user), Some(limit), contentLength, parts, recorded);
      reply.Created? ==> Used(jobs + [JobRow(id, user, reply.size, false)], results, user) <= limit
  {
    hide Used, Verdict, Wrap64;
    KeptFromIff(jobs, results, id, user, limit, Used(jobs, results, user));
  }

  /** A usage read as zero although something is stored: an upload of the whole limit is accepted on top. */
  lemma FailedQueryOverruns(jobs: seq<JobRow>, results: seq<ResultRow>, id: nat, user: UserId, limit: Int64,
                            queryOk: bool)
    requires limit > 0 && Used(jobs, results, user) > 0
    requires UsedRead(Some(limit), queryOk, Used(jobs, results, user)) == 0
    requires forall k :: 0 <= k < |results| ==> results[k].job != id
    ensures
      var reply := Verdict(UsedRead(Some(limit), queryOk, Used(jobs, results, user)), Some(limit), 0,
                           OneVideo(limit), true);
      && reply == Created(limit)
      && Used(jobs + [JobRow(id, user, limit, false)], results, user) > limit
  {
    hide Used, Verdict;
    WholeRoomAccepted(0, limit);
    assert Wrap64(limit - 0) == limit;
    NewJobAdds(jobs, results, JobRow(id, user, limit, false), user);
  }

  /**
   With nothing between the reading of the usage and the row: the quota is kept by every upload if
   and only if the usage query answers with a sum that fits 64 bits, or nothing is stored.
   */
  lemma QuotaKeptIff(jobs: seq<JobRow>, results: seq<ResultRow>, id: nat, user: UserId, limit: Int64, queryOk: bool)
    requires limit > 0 && forall k :: 0 <= k < |results| ==> results[k].job != id
    ensures
      var used := Used(jobs, results, user);
      KeepsFrom(jobs, results, id, user, limit, UsedRead(Some(limit), queryOk, used))
      <==> (queryOk && used < INT64) || used <= 0
  {
    hide Used, Verdict, KeepsFrom;
    KeptFromIff(jobs, results, id, user, limit, UsedRead(Some(limit), queryOk, Used(jobs, results, user)));
    assert Wrap64(limit - 0) == limit;
  }

  /** Quotas that are off set no limit; a user's own limit goes before the default, and none or less is unlimited. */
  lemma LimitInForce(enabled: bool, fallback: Int64, override: Option<Int64>, own: Int64)
    ensures LimitFor(None, override) == None && LimitFor(Some(Settings(false, fallback)), override) == None
    ensures LimitFor(Some(Settings(true, fallback)), Some(own)) == if own > 0 then Some(own) else None
    ensures LimitFor(Some(Settings(true, fallback)), None) == if fallback > 0 then Some(fallback) else None
  {
  }

  /** Form fields, that many. */
  function Fields(n: nat): seq<Part> { seq(n, _ => Field) }

  lemma {:induction false} FieldsSkipped(n: nat, parts: seq<Part>, limit: int, size: Option<nat>)
    ensures ReadParts(Fields(n) + parts, limit, size) == ReadParts(parts, limit, size)
  {
    if n == 0 {
      assert Fields(0) + parts == parts;
    } else {
      assert (Fields(n) + parts)[1..] == Fields(n - 1) + parts;
      FieldsSkipped(n - 1, parts, limit, size);
    }
  }

  /** One video among fields, read without error. */
  lemma VideoRead(source: seq<Chunk>, before: nat, behind: nat, limit: int)
    requires limit >= 0 && Clean(source)
    ensures ReadParts(Fields(before) + ([File(true, source, true)] + Fields(behind)), limit, None)
         == if limit > 0 && Total(source) > limit then OverQuota else Created(Total(source))
  {
    var parts := [File(true, source, true)] + Fields(behind);
    FieldsSkipped(before, parts, limit, None);
    DrainClean(source, 0, limit);
    hide Drain, Total;
    assert parts[1..] == Fields(behind) == Fields(behind) + [];
    FieldsSkipped(behind, [], limit, Some(Drain(source, 0, limit).bytes));
  }

  /**
   A video that is sent without error, anywhere among form fields, is accepted if and only if no limit is
   in force, or there is room for it and for the length that was declared, if one was.
   */
  lemma GoodUploadIff(used: Int64, limit: Option<Int64>, contentLength: Int64, source: seq<Chunk>, before: nat,
                      behind: nat)
    requires used >= 0 && used + contentLength < INT64 && (limit.Some? ==> limit.value > 0) && Clean(source)
    ensures
      var parts := Fields(before) + ([File(true, source, true)] + Fields(behind));
      var fits := limit.None? || (used < limit.value && used + Total(source) <= limit.value
                                  && (contentLength <= 0 || used + contentLength <= limit.value));
      Verdict(used, limit, contentLength, parts, true) == if fits then Created(Total(source)) else OverQuota
  {
    hide ReadParts, Total, Fields;
    VideoRead(source, before, behind, if limit.Some? && used < limit.value then limit.value - used else 0);
  }
}
