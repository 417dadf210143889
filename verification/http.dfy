/**
 * The abstract response a handler produces. Bodies that carry file data are
 * described by the lengths of the pieces the handler's generator yields, not
 * by their (random) bytes.
 */
module Http {

  /** One mebibyte, the handlers' chunk size (1024 * 1024 bytes). */
  const MiB: nat := 1024 * 1024

  datatype Body =
    | Text(text: string)
    | Json(fields: map<string, string>)
    /** The page the framework's redirect helper writes for a 302. */
    | RedirectPage(target: string)
    /** Lengths of the yielded pieces; raised: the generator raised after them. */
    | Octets(pieces: seq<nat>, raised: bool)

  /** Status, the headers the handler sets itself, and the body. */
  datatype Response = Response(status: int, headers: map<string, string>, body: Body)

  /** A handler either responds or lets int()'s ValueError escape. */
  datatype Outcome = Served(response: Response) | ValueErrorRaised

  function Sum(pieces: seq<nat>): nat {
    if pieces == [] then 0 else pieces[0] + Sum(pieces[1..])
  }

  lemma {:induction false} SumAppend(a: seq<nat>, b: seq<nat>)
    ensures Sum(a + b) == Sum(a) + Sum(b)
  {
    if a == [] {
      assert a + b == b;
    } else {
      assert (a + b)[1..] == a[1..] + b;
      SumAppend(a[1..], b);
    }
  }

  /** Number of bytes that reach the client in a body of file data. */
  function BodyLength(body: Body): nat
    requires body.Octets?
  {
    Sum(body.pieces)
  }
}
