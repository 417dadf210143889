/**
 * The two streaming downloads: /api/download, whose generator yields 1 MiB
 * chunks under a fixed Content-Length and may stop early at an abort
 * boundary, and /api/download-no-length, which yields whole chunks and
 * declares no length at all.
 */
module Download {
  import opened Wrappers
  import opened Decimal
  import opened Query
  import opened Http

  function Min(a: int, b: int): int { if a <= b then a else b }

  function Max(a: int, b: int): int { if a >= b then a else b }

  /** len(chunk[:stop]) for a chunk of n bytes, with Python's slice clamping. */
  function SliceLength(n: nat, stop: int): (r: nat)
    ensures r <= n
    ensures stop + n <= 0 ==> r == 0
  {
    var end := if stop < 0 then stop + n else stop;
    if end < 0 then 0 else if end > n then n else end
  }

  /** n full chunks. */
  function FullChunks(n: nat): (r: seq<nat>)
    ensures |r| == n
  {
    seq(n, _ => MiB)
  }

  lemma {:induction false} SumFullChunks(n: nat)
    ensures Sum(FullChunks(n)) == n * MiB
  {
    if n > 0 {
      assert FullChunks(n)[1..] == FullChunks(n - 1);
      SumFullChunks(n - 1);
    }
  }

  /**
   * The pieces the download generator yields for size and abortAfter (both
   * in MiB): whole chunks up to the smaller of the two, then, when the abort
   * boundary comes first, the one cut-off piece, which is empty because the
   * boundary is itself a whole number of chunks.
   */
  function StreamPieces(sizeMb: int, abortAfterMb: int): seq<nat> {
    if sizeMb <= 0 then []
    else if abortAfterMb >= sizeMb then FullChunks(sizeMb)
    else FullChunks(Max(abortAfterMb, 0)) + [0]
  }

  /**
   * The generator of /api/download, run to its end. bytesSent is the
   * counter it keeps; the loop either sends one more whole chunk or yields
   * the cut-off piece and stops.
   */
  method Stream(sizeMb: int, abortAfterMb: int) returns (pieces: seq<nat>, bytesSent: int)
    ensures pieces == StreamPieces(sizeMb, abortAfterMb)
    ensures bytesSent == Max(0, Min(sizeMb, abortAfterMb)) * MiB
    ensures bytesSent == Sum(pieces)
  {
    var totalBytes := sizeMb * MiB;
    var abortBytes := abortAfterMb * MiB;
    bytesSent := 0;
    pieces := [];
    while bytesSent < totalBytes
      invariant bytesSent == |pieces| * MiB
      invariant |pieces| <= Max(0, Min(sizeMb, abortAfterMb))
      invariant pieces == FullChunks(|pieces|)
      decreases totalBytes - bytesSent
    {
      if bytesSent + MiB > abortBytes {
        pieces := pieces + [SliceLength(MiB, abortBytes - bytesSent)];
        break;
      }
      pieces := pieces + [MiB];
      bytesSent := bytesSent + MiB;
    }
    StreamTotal(sizeMb, abortAfterMb);
  }

  /** What the generator delivers: the smaller of size and abortAfter, in MiB. */
  lemma StreamTotal(sizeMb: int, abortAfterMb: int)
    ensures Sum(StreamPieces(sizeMb, abortAfterMb)) == Max(0, Min(sizeMb, abortAfterMb)) * MiB
  {
    if sizeMb > 0 {
      if abortAfterMb >= sizeMb {
        SumFullChunks(sizeMb);
      } else {
        var full := FullChunks(Max(abortAfterMb, 0));
        SumAppend(full, [0]);
        SumFullChunks(Max(abortAfterMb, 0));
        assert Sum([0]) == 0;
      }
    }
  }

  /** Every piece is at most a chunk, all but the last are whole chunks, and a cut-off last piece is empty. */
  lemma StreamShape(sizeMb: int, abortAfterMb: int)
    ensures var pieces := StreamPieces(sizeMb, abortAfterMb);
      (forall i | 0 <= i < |pieces| :: pieces[i] <= MiB) &&
      (forall i | 0 <= i < |pieces| - 1 :: pieces[i] == MiB) &&
      |pieces| == (if sizeMb <= 0 then 0 else if abortAfterMb >= sizeMb then sizeMb else Max(abortAfterMb, 0) + 1) &&
      (0 < sizeMb && abortAfterMb < sizeMb ==> pieces[|pieces| - 1] == 0)
  {
  }

  /** The headers /api/download sets, declaring totalBytes as Content-Length. */
  function DownloadHeaders(totalBytes: int): map<string, string> {
    map[
      "Accept-Ranges" := "bytes",
      "Content-Disposition" := "attachment; filename=file.bin",
      "Content-Length" := Show(totalBytes)
    ]
  }

  /** GET /api/download?size=..&abortAfter=.. (size defaults to 10, abortAfter to size). */
  method BasicDownload(args: Args) returns (o: Outcome)
    ensures o.ValueErrorRaised? <==>
      IntArg(args, "size", 10).None? ||
      IntArg(args, "abortAfter", IntArg(args, "size", 10).value).None?
    ensures o.Served? ==>
      var sizeMb := IntArg(args, "size", 10).value;
      var abortAfterMb := IntArg(args, "abortAfter", sizeMb).value;
      o.response == Response(200, DownloadHeaders(sizeMb * MiB), Octets(StreamPieces(sizeMb, abortAfterMb), false))
  {
    var sizeMb := IntArg(args, "size", 10);
    if sizeMb.None? {
      return ValueErrorRaised;
    }
    var abortAfterMb := IntArg(args, "abortAfter", sizeMb.value);
    if abortAfterMb.None? {
      return ValueErrorRaised;
    }
    var totalBytes := sizeMb.value * MiB;
    var pieces, _ := Stream(sizeMb.value, abortAfterMb.value);
    o := Served(Response(200, DownloadHeaders(totalBytes), Octets(pieces, false)));
  }

  /**
   * Without abortAfter, a download of size >= 0 MiB delivers exactly the
   * declared Content-Length.
   */
  lemma CompleteDownload(sizeMb: int)
    requires sizeMb >= 0
    ensures var body := Octets(StreamPieces(sizeMb, sizeMb), false);
      BodyLength(body) == sizeMb * MiB &&
      ParseInt(DownloadHeaders(sizeMb * MiB)["Content-Length"]) == Some(BodyLength(body))
  {
    StreamTotal(sizeMb, sizeMb);
    ParseShow(sizeMb * MiB);
  }

  /**
   * With 0 <= abortAfter < size, the body stops at abortAfter MiB, short of
   * the Content-Length, which still declares size MiB.
   */
  lemma TruncatedDownload(sizeMb: int, abortAfterMb: int)
    requires 0 <= abortAfterMb < sizeMb
    ensures var body := Octets(StreamPieces(sizeMb, abortAfterMb), false);
      BodyLength(body) == abortAfterMb * MiB &&
      BodyLength(body) < sizeMb * MiB &&
      ParseInt(DownloadHeaders(sizeMb * MiB)["Content-Length"]) == Some(sizeMb * MiB)
  {
    StreamTotal(sizeMb, abortAfterMb);
    ParseShow(sizeMb * MiB);
  }

  /** The generator of /api/download-no-length: size whole chunks, none when size <= 0. */
  method Generate(sizeMb: int) returns (pieces: seq<nat>)
    ensures |pieces| == Max(sizeMb, 0)
    ensures forall i | 0 <= i < |pieces| :: pieces[i] == MiB
    ensures Sum(pieces) == Max(sizeMb, 0) * MiB
  {
    pieces := [];
    var count := 0;
    while count < sizeMb
      invariant count == |pieces| <= Max(sizeMb, 0)
      invariant pieces == FullChunks(count)
    {
      pieces := pieces + [MiB];
      count := count + 1;
    }
    SumFullChunks(count);
  }

  /** The headers /api/download-no-length sets: no Content-Length among them. */
  function NoLengthHeaders(): map<string, string> {
    map[
      "Content-Disposition" := "attachment; filename=file-no-length.bin"
    ]
  }

  /** GET /api/download-no-length?size=.. (size defaults to 10). */
  method DownloadNoLength(args: Args) returns (o: Outcome)
    ensures o.ValueErrorRaised? <==> IntArg(args, "size", 10).None?
    ensures o.Served? ==>
      var sizeMb := IntArg(args, "size", 10).value;
      var r := o.response;
      r.status == 200 && r.headers == NoLengthHeaders() && "Content-Length" !in r.headers &&
      r.body.Octets? && !r.body.raised &&
      |r.body.pieces| == Max(sizeMb, 0) &&
      (forall i | 0 <= i < |r.body.pieces| :: r.body.pieces[i] == MiB) &&
      BodyLength(r.body) == Max(sizeMb, 0) * MiB
  {
    var sizeMb := IntArg(args, "size", 10);
    if sizeMb.None? {
      return ValueErrorRaised;
    }
    var pieces := Generate(sizeMb.value);
    o := Served(Response(200, NoLengthHeaders(), Octets(pieces, false)));
  }
}
