/**
 * GET /api/download-4xx: answers with whatever status the caller names,
 * unchecked, or 400 when the code is not an integer.
 */
module Status {
  import opened Wrappers
  import opened Decimal
  import opened Query
  import opened Http

  function Message(code: int): string {
    "Simulated HTTP " + Show(code) + " error"
  }

  function Simulate4xx(args: Args): (r: Response)
    ensures IntArg(args, "code", 401).None? <==> r == Response(400, map[], Text("Invalid code"))
    ensures IntArg(args, "code", 401).Some? ==>
      r == Response(IntArg(args, "code", 401).value, map[], Text(Message(r.status)))
  {
    match IntArg(args, "code", 401)
    case Some(code) => Response(code, map[], Text(Message(code)))
    case None => Response(400, map[], Text("Invalid code"))
  }

  /** The code inside a simulated message reads back as the status it came with. */
  lemma MessageNamesStatus(code: int)
    ensures var text := Message(code);
      |text| > 21 &&
      text[..15] == "Simulated HTTP " && text[|text| - 6..] == " error" &&
      ParseInt(text[15..|text| - 6]) == Some(code)
  {
    var text := Message(code);
    assert text[15..|text| - 6] == Show(code);
    ParseShow(code);
  }

  /** A code written by Show comes back unchanged as the status, with no range check. */
  lemma AnyCodeIsEchoed(code: int)
    ensures Simulate4xx(map["code" := Show(code)]) == Response(code, map[], Text(Message(code)))
  {
    ParseShow(code);
  }

  /** Without a code parameter the answer is 401. */
  lemma DefaultIs401()
    ensures Simulate4xx(map[]) == Response(401, map[], Text("Simulated HTTP 401 error"))
  {
    assert NatDigits(4) == "4";
    assert NatDigits(40) == "40";
    assert Show(401) == "401";
    assert Message(401) == "Simulated HTTP 401 error";
    assert IntArg(map[], "code", 401) == Some(401);
  }

  /** A code that is not an integer yields 400 "Invalid code". */
  lemma NonIntegerCode(text: string, i: nat)
    requires i < |text| && !IsDigit(text[i])
    requires i > 0 || (text[0] != '-' && text[0] != '+')
    ensures Simulate4xx(map["code" := text]) == Response(400, map[], Text("Invalid code"))
  {
    ParseRejectsForeign(text, i);
  }
}
