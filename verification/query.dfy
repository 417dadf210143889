/**
 * Query parameters as the handlers see them: a map from parameter name to
 * the raw text of its value (request.args), and the reading of a URL's query
 * string into such a map, which is how a client following a redirect turns a
 * Location header into the parameters of its next request.
 */
module Query {
  import opened Wrappers
  import opened Decimal

  type Args = map<string, string>

  /** int(request.args.get(key, default)): the default when the key is absent. */
  function IntArg(args: Args, key: string, default: int): (r: Option<int>)
    ensures key !in args ==> r == Some(default)
    ensures key in args ==> (r.Some? <==> ParseInt(args[key]).Some?)
  {
    if key in args then ParseInt(args[key]) else Some(default)
  }

  /** A parameter written out by Show reads back as the integer it came from. */
  lemma IntArgShow(args: Args, key: string, default: int, n: int)
    requires key in args && args[key] == Show(n)
    ensures IntArg(args, key, default) == Some(n)
  {
    ParseShow(n);
  }

  /** The index of the first c in s, or |s| when there is none. */
  function IndexOf(s: string, c: char): (i: nat)
    ensures i <= |s|
    ensures i < |s| ==> s[i] == c
    ensures forall j | 0 <= j < i :: s[j] != c
  {
    if s == [] then 0 else if s[0] == c then 0 else 1 + IndexOf(s[1..], c)
  }

  /** s cut at every c. */
  function SplitOn(s: string, c: char): (parts: seq<string>)
    ensures |parts| > 0
    decreases |s|
  {
    var i := IndexOf(s, c);
    if i == |s| then [s] else [s[..i]] + SplitOn(s[i + 1..], c)
  }

  /** "k=v" pairs into a map; when a name repeats, its first value wins. */
  function PairsToArgs(pairs: seq<string>): Args {
    if pairs == [] then map[]
    else
      var pair := pairs[0];
      var i := IndexOf(pair, '=');
      var value := if i < |pair| then pair[i + 1..] else "";
      PairsToArgs(pairs[1..])[pair[..i] := value]
  }

  /** The parameters of a URL: what follows its first '?', split at '&' and '='. */
  function UrlArgs(url: string): Args {
    var q := IndexOf(url, '?');
    if q == |url| then map[] else PairsToArgs(SplitOn(url[q + 1..], '&'))
  }

  lemma IndexOfFirst(u: string, c: char, v: string)
    requires c !in u
    ensures IndexOf(u + [c] + v, c) == |u|
  {
    var s := u + [c] + v;
    assert s[|u|] == c;
  }

  lemma SplitAbsent(s: string, c: char)
    requires c !in s
    ensures SplitOn(s, c) == [s]
  {
  }

  /** "k=v" with no '=' in k splits back into k and v. */
  lemma PairParts(k: string, v: string)
    requires '=' !in k
    ensures var pair := k + "=" + v;
      IndexOf(pair, '=') == |k| && pair[..|k|] == k && pair[|k| + 1..] == v
  {
    var pair := k + "=" + v;
    assert pair == k + ['='] + v;
    IndexOfFirst(k, '=', v);
  }

  lemma PairsOfTwo(k1: string, v1: string, k2: string, v2: string)
    requires '=' !in k1 && '=' !in k2 && k1 != k2
    ensures PairsToArgs([k1 + "=" + v1, k2 + "=" + v2]) == map[k1 := v1, k2 := v2]
  {
    PairParts(k1, v1);
    PairParts(k2, v2);
    assert [k1 + "=" + v1, k2 + "=" + v2][1..] == [k2 + "=" + v2];
    assert PairsToArgs([k2 + "=" + v2]) == map[k2 := v2];
  }

  lemma SplitOfTwo(p1: string, p2: string)
    requires '&' !in p1 && '&' !in p2
    ensures SplitOn(p1 + "&" + p2, '&') == [p1, p2]
  {
    var query := p1 + "&" + p2;
    assert query == p1 + ['&'] + p2;
    IndexOfFirst(p1, '&', p2);
    assert query[..|p1|] == p1;
    assert query[|p1| + 1..] == p2;
    SplitAbsent(p2, '&');
  }

  /**
   * A URL of the form path?k1=v1&k2=v2 with '&' in neither value reads back
   * as exactly those two parameters.
   */
  lemma UrlArgsOfTwo(path: string, k1: string, v1: string, k2: string, v2: string)
    requires '?' !in path
    requires '=' !in k1 && '=' !in k2 && '&' !in k1 && '&' !in k2
    requires '&' !in v1 && '&' !in v2
    requires k1 != k2
    ensures UrlArgs(path + "?" + k1 + "=" + v1 + "&" + k2 + "=" + v2) == map[k1 := v1, k2 := v2]
  {
    var p1 := k1 + "=" + v1;
    var p2 := k2 + "=" + v2;
    var query := p1 + "&" + p2;
    var url := path + "?" + k1 + "=" + v1 + "&" + k2 + "=" + v2;
    assert url == path + ['?'] + query;
    IndexOfFirst(path, '?', query);
    assert url[|path| + 1..] == query;
    assert '&' !in p1 && '&' !in p2;
    SplitOfTwo(p1, p2);
    PairsOfTwo(k1, v1, k2, v2);
  }
}
