/**
 * GET /api/redirect-download: a chain of 302 responses, each pointing at the
 * same endpoint with one redirect fewer, ending in a single block of data.
 * No state links the hops: everything travels in the Location URL.
 */
module Redirect {
  import opened Wrappers
  import opened Decimal
  import opened Query
  import opened Http

  const Path: string := "/api/redirect-download"

  /** The Location of the next hop. */
  function RedirectUrl(redirects: int, sizeMb: int): string {
    Path + "?" + "redirects" + "=" + Show(redirects) + "&" + "size" + "=" + Show(sizeMb)
  }

  function PayloadHeaders(): map<string, string> {
    map["Content-Disposition" := "attachment; filename=redirected_file.bin"]
  }

  /**
   * The generator yields os.urandom(size MiB) once; for a negative size
   * os.urandom raises before anything is yielded.
   */
  function PayloadBody(sizeMb: int): (body: Body)
    ensures body.Octets?
    ensures sizeMb >= 0 ==> !body.raised && BodyLength(body) == sizeMb * MiB && |body.pieces| == 1
    ensures sizeMb < 0 ==> body.raised && BodyLength(body) == 0
  {
    if sizeMb >= 0 then
      assert Sum([sizeMb * MiB]) == sizeMb * MiB + Sum([]);
      Octets([sizeMb * MiB], false)
    else Octets([], true)
  }

  /** A 302 whose Location asks for the given redirects and size. */
  function RedirectResponse(redirects: int, sizeMb: int): Response {
    var next := RedirectUrl(redirects, sizeMb);
    Response(302, map["Location" := next], RedirectPage(next))
  }

  /** The final 200 carrying the payload. */
  function PayloadResponse(sizeMb: int): Response {
    Response(200, PayloadHeaders(), PayloadBody(sizeMb))
  }

  function RedirectDownload(args: Args): (o: Outcome)
    ensures o.ValueErrorRaised? <==>
      IntArg(args, "redirects", 0).None? || IntArg(args, "size", 10).None?
    ensures o.Served? ==>
      var redirects := IntArg(args, "redirects", 0).value;
      var sizeMb := IntArg(args, "size", 10).value;
      (o.response.status == 302 <==> redirects > 0) &&
      (redirects > 0 ==> o.response == RedirectResponse(redirects - 1, sizeMb)) &&
      (redirects <= 0 ==> o.response == PayloadResponse(sizeMb))
    ensures args == map[] ==> o == Served(Response(200, PayloadHeaders(), Octets([10 * MiB], false)))
  {
    var redirects := IntArg(args, "redirects", 0);
    var sizeMb := IntArg(args, "size", 10);
    if redirects.None? || sizeMb.None? then ValueErrorRaised
    else if redirects.value > 0 then Served(RedirectResponse(redirects.value - 1, sizeMb.value))
    else Served(PayloadResponse(sizeMb.value))
  }

  lemma ShowHasNoAmpersand(n: int)
    ensures '&' !in Show(n)
  {
  }

  /** The parameters of the request a client sends for RedirectUrl(redirects, sizeMb). */
  function RequestArgs(redirects: int, sizeMb: int): Args {
    map["redirects" := Show(redirects), "size" := Show(sizeMb)]
  }

  /**
   * Following a Location is sending the request it names: the query of
   * RedirectUrl(redirects, sizeMb) reads as exactly those two parameters,
   * which parse back to the same integers.
   */
  lemma LocationNamesRequest(redirects: int, sizeMb: int)
    ensures UrlArgs(RedirectUrl(redirects, sizeMb)) == RequestArgs(redirects, sizeMb)
    ensures IntArg(RequestArgs(redirects, sizeMb), "redirects", 0) == Some(redirects)
    ensures IntArg(RequestArgs(redirects, sizeMb), "size", 10) == Some(sizeMb)
  {
    ShowHasNoAmpersand(redirects);
    ShowHasNoAmpersand(sizeMb);
    UrlArgsOfTwo(Path, "redirects", Show(redirects), "size", Show(sizeMb));
    ParseShow(redirects);
    ParseShow(sizeMb);
  }

  /**
   * The responses a client sees when it requests RequestArgs(redirects,
   * sizeMb) and then follows every 302 to the request its Location names.
   */
  function FollowRedirects(redirects: int, sizeMb: int): (hops: seq<Outcome>)
    ensures |hops| > 0
    decreases if redirects > 0 then redirects else 0
  {
    LocationNamesRequest(redirects, sizeMb);
    var o := RedirectDownload(RequestArgs(redirects, sizeMb));
    if o.Served? && o.response.status == 302 then
      [o] + FollowRedirects(redirects - 1, sizeMb)
    else [o]
  }

  /**
   * The responses a chain starting at n redirects should show: a 302 that
   * asks for n - 1 redirects, then the chain from n - 1; at 0, the payload.
   */
  function ExpectedChain(n: nat, sizeMb: int): seq<Outcome> {
    if n == 0 then [Served(PayloadResponse(sizeMb))]
    else [Served(RedirectResponse(n - 1, sizeMb))] + ExpectedChain(n - 1, sizeMb)
  }

  /**
   * The expected chain has n + 1 responses: the i-th, for i < n, is a 302
   * whose Location asks for n - 1 - i redirects and the same size, and the
   * last is the payload.
   */
  lemma {:induction false} ExpectedChainShape(n: nat, sizeMb: int)
    ensures var hops := ExpectedChain(n, sizeMb);
      |hops| == n + 1 &&
      (forall i | 0 <= i < n :: hops[i] == Served(RedirectResponse(n - 1 - i, sizeMb))) &&
      hops[n] == Served(PayloadResponse(sizeMb))
  {
    if n > 0 {
      ExpectedChainShape(n - 1, sizeMb);
      var hops := ExpectedChain(n, sizeMb);
      var rest := ExpectedChain(n - 1, sizeMb);
      forall i | 0 < i <= n
        ensures hops[i] == rest[i - 1]
      {
      }
    }
  }

  /**
   * Starting from n >= 0 redirects, a client that follows the Location
   * headers sees exactly the expected chain: n redirects, then the payload.
   */
  lemma {:induction false} ChainReachesPayload(n: nat, sizeMb: int)
    ensures FollowRedirects(n, sizeMb) == ExpectedChain(n, sizeMb)
  {
    if n > 0 {
      RedirectStep(n, sizeMb);
      ChainReachesPayload(n - 1, sizeMb);
    } else {
      LocationNamesRequest(n, sizeMb);
    }
  }

  /** One hop of a chain with n > 0 redirects left: a 302 naming n - 1, then the rest. */
  lemma RedirectStep(n: int, sizeMb: int)
    requires n > 0
    ensures FollowRedirects(n, sizeMb)
      == [Served(RedirectResponse(n - 1, sizeMb))] + FollowRedirects(n - 1, sizeMb)
  {
    LocationNamesRequest(n, sizeMb);
  }
}
