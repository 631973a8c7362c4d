/**
  The token accounting of `proxy.ForwardStream` over the lines of an event stream. A line carries
  what decoding its payload gave; a string is a sequence of Unicode code points.
 */
module StreamTokens {
  import opened Basics

  datatype Usage = Usage(prompt: int, completion: int)

  /** An OpenAI-style chunk: its usage field, if present, and the content of each choice's delta. */
  datatype Chunk = Chunk(usage: Option<Usage>, deltas: seq<string>)

  /** A line of the stream. A data line may decode as an OpenAI-style chunk, as a responses-style
      chunk (whose usage is zero when absent), as both or as neither. */
  datatype Line =
    | Ignored(text: string)   // not a data line, or the [DONE] marker
    | Data(text: string, chunk: Option<Chunk>, responses: Option<Usage>)

  datatype StreamResult = StreamResult(promptTokens: int, completionTokens: int, fullContent: string,
                                       rawLines: seq<string>)

  // ---- Closed form ----------------------------------------------------------------------

  function OpenAiUsage(l: Line): Option<Usage> {
    if l.Data? && l.chunk.Some? then l.chunk.value.usage else None
  }

  function ResponsesUsage(l: Line): Option<Usage> {
    if l.Data? && l.responses.Some? && l.responses.value.prompt > 0 then l.responses else None
  }

  function Last(ls: seq<Line>): Option<Usage> {
    if ls == [] then None
    else if OpenAiUsage(ls[|ls| - 1]).Some? then OpenAiUsage(ls[|ls| - 1])
    else Last(ls[..|ls| - 1])
  }

  function First(ls: seq<Line>): Option<Usage> {
    if ls == [] then None
    else if First(ls[..|ls| - 1]).Some? then First(ls[..|ls| - 1])
    else ResponsesUsage(ls[|ls| - 1])
  }

  function Concat(parts: seq<string>): string {
    if parts == [] then "" else Concat(parts[..|parts| - 1]) + parts[|parts| - 1]
  }

  function Content(ls: seq<Line>): string {
    if ls == [] then ""
    else
      var l := ls[|ls| - 1];
      Content(ls[..|ls| - 1]) + if l.Data? && l.chunk.Some? then Concat(l.chunk.value.deltas) else ""
  }

  function Texts(ls: seq<Line>): seq<string> {
    seq(|ls|, i requires 0 <= i < |ls| => ls[i].text)
  }

  /** What the stream says about usage: the last OpenAI-style usage, or else the first
      responses-style one with positive input tokens. */
  function Reported(ls: seq<Line>): Option<Usage> {
    if Last(ls).Some? then Last(ls) else First(ls)
  }

  function Estimated(content: string): int {
    if |content| == 0 then 0 else if |content| / 2 > 1 then |content| / 2 else 1
  }

  /** The usage counted for a completed stream. */
  function Counted(ls: seq<Line>): Usage {
    match Reported(ls)
    case Some(u) => u
    case None => Usage(0, Estimated(Content(ls)))
  }

  lemma {:induction false} LastIsLast(ls: seq<Line>)
    ensures Last(ls).None? <==> forall l <- ls :: OpenAiUsage(l).None?
    ensures Last(ls).Some? ==> exists i :: 0 <= i < |ls| && OpenAiUsage(ls[i]) == Last(ls)
                                           && forall j :: i < j < |ls| ==> OpenAiUsage(ls[j]).None?
  {
    if ls != [] {
      var n := |ls| - 1;
      LastIsLast(ls[..n]);
      assert ls == ls[..n] + [ls[n]];
      if OpenAiUsage(ls[n]).None? && Last(ls[..n]).Some? {
        var i :| 0 <= i < n && OpenAiUsage(ls[..n][i]) == Last(ls[..n])
                 && forall j :: i < j < n ==> OpenAiUsage(ls[..n][j]).None?;
        assert OpenAiUsage(ls[i]) == Last(ls);
        assert forall j :: i < j < n ==> ls[..n][j] == ls[j];
      }
    }
  }

  lemma {:induction false} FirstIsFirst(ls: seq<Line>)
    ensures First(ls).None? <==> forall l <- ls :: ResponsesUsage(l).None?
    ensures First(ls).Some? ==> exists i :: 0 <= i < |ls| && ResponsesUsage(ls[i]) == First(ls)
                                            && forall j :: 0 <= j < i ==> ResponsesUsage(ls[j]).None?
  {
    if ls != [] {
      var n := |ls| - 1;
      FirstIsFirst(ls[..n]);
      assert ls == ls[..n] + [ls[n]];
      if First(ls[..n]).Some? {
        var i :| 0 <= i < n && ResponsesUsage(ls[..n][i]) == First(ls[..n])
                 && forall j :: 0 <= j < i ==> ResponsesUsage(ls[..n][j]).None?;
        assert ResponsesUsage(ls[i]) == First(ls);
        assert forall j :: 0 <= j < i ==> ls[..n][j] == ls[j];
      } else {
        assert forall j :: 0 <= j < n ==> ls[..n][j] in ls[..n] && ls[..n][j] == ls[j];
      }
    }
  }

  // ---- The loop ------------------------------------------------------------------------------

  function Framed(ls: seq<Line>): seq<string> {
    seq(|ls|, i requires 0 <= i < |ls| => ls[i].text + "\n")
  }

  function UsageOr(u: Option<Usage>, default: Usage): Usage {
    match u case None => default case Some(v) => v
  }

  method AppendDeltas(content0: string, deltas: seq<string>) returns (content: string)
    ensures content == content0 + Concat(deltas)
  {
    content := content0;
    for i := 0 to |deltas|
      invariant content == content0 + Concat(deltas[..i])
    {
      assert deltas[..i + 1][..i] == deltas[..i];
      if deltas[i] != "" { content := content + deltas[i]; }
    }
    assert deltas[..|deltas|] == deltas;
  }

  /** What one more line adds. */
  lemma NextLine(ls: seq<Line>, l: Line)
    ensures Texts(ls + [l]) == Texts(ls) + [l.text]
    ensures Concat(Framed(ls + [l])) == Concat(Framed(ls)) + (l.text + "\n")
    ensures Content(ls + [l]) == Content(ls) + if l.Data? && l.chunk.Some? then Concat(l.chunk.value.deltas) else ""
  {
    assert (ls + [l])[..|ls|] == ls;
    assert Framed(ls + [l])[..|ls|] == Framed(ls);
  }

  lemma NextUsage(ls: seq<Line>, l: Line)
    ensures Reported(ls + [l]) == if OpenAiUsage(l).Some? then OpenAiUsage(l)
                                  else if Reported(ls).Some? then Reported(ls)
                                  else ResponsesUsage(l)
  {
    assert (ls + [l])[..|ls|] == ls;
  }

  /** What can go wrong while the lines come in: the context is done when line `cancelledAt` has been
      read, the client cannot be written line `failsAt`, or the scanner stops with an error at the end. */
  datatype Faults = Faults(cancelledAt: nat, failsAt: nat, scanError: bool) {
    /** How many of n lines reach the client and are counted. */
    function Handled(n: nat): nat {
      if n <= cancelledAt && n <= failsAt then n else if cancelledAt <= failsAt then cancelledAt else failsAt
    }
    /** How many are recorded: a line is recorded before it is written. */
    function Recorded(n: nat): nat {
      if Handled(n) < n && Handled(n) < cancelledAt then Handled(n) + 1 else Handled(n)
    }
    predicate Completes(n: nat) {
      Handled(n) == n && !scanError
    }
  }

  /** Reads the lines one by one, writing each to the client. Only a stream that completes gets an
      estimate; one that breaks off keeps the usage reported by the lines that were handled. */
  method ForwardStream(lines: seq<Line>, faults: Faults) returns (result: StreamResult, ok: bool, sent: string)
    ensures ok == faults.Completes(|lines|)
    ensures var n := faults.Handled(|lines|);
            && faults.Recorded(|lines|) <= |lines|
            && result.rawLines == Texts(lines[..faults.Recorded(|lines|)])
            && result.fullContent == Content(lines[..n]) && sent == Concat(Framed(lines[..n]))
            && Usage(result.promptTokens, result.completionTokens)
               == if ok then Counted(lines) else UsageOr(Reported(lines[..n]), Usage(0, 0))
  {
    var usage, usageFound := Usage(0, 0), false;
    var content, raw := "", [];
    sent := "";
    for i := 0 to |lines|
      invariant i <= faults.Handled(|lines|)
      invariant raw == Texts(lines[..i]) && content == Content(lines[..i]) && sent == Concat(Framed(lines[..i]))
      invariant usageFound == Reported(lines[..i]).Some?
      invariant usage == UsageOr(Reported(lines[..i]), Usage(0, 0))
    {
      var line := lines[i];
      assert lines[..i + 1] == lines[..i] + [line];
      NextLine(lines[..i], line);
      NextUsage(lines[..i], line);
      if faults.cancelledAt == i { return StreamResult(usage.prompt, usage.completion, content, raw), false, sent; }
      raw := raw + [line.text];
      if faults.failsAt == i { return StreamResult(usage.prompt, usage.completion, content, raw), false, sent; }
      sent := sent + (line.text + "\n");
      if line.Ignored? { continue; }
      if line.chunk.Some? {
        if line.chunk.value.usage.Some? { usage, usageFound := line.chunk.value.usage.value, true; }
        content := AppendDeltas(content, line.chunk.value.deltas);
      }
      if !usageFound {
        if line.responses.Some? {
          if line.responses.value.prompt > 0 { usage, usageFound := line.responses.value, true; }
        }
      }
    }
    assert lines[..|lines|] == lines;
    if faults.scanError { return StreamResult(usage.prompt, usage.completion, content, raw), false, sent; }
    if !usageFound {
      var runes := |content|;
      if runes == 0 { usage := usage.(completion := 0); }
      else { usage := usage.(completion := if runes / 2 > 1 then runes / 2 else 1); }
    }
    return StreamResult(usage.prompt, usage.completion, content, raw), true, sent;
  }
}
