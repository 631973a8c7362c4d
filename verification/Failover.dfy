/**
  `forwardWithRetry`: tries the candidate nodes one after another, each with a recorder between
  the upstream response and the client, until one succeeds or the attempts or nodes run out.
  The upstream is an arbitrary function of attempt and node; what it can do to the recorder is
  the contract of proxy.Forward: either no response and nothing written, or one WriteHeader with
  the response's status followed by writes of its bytes, and possibly an error afterwards.
 */
module Failover {
  import opened Basics
  import opened CounterKeys

  // ---- Error classification -----------------------------------------------------------

  /** A Go error: whether it wraps the two context errors, and its text. */
  datatype GoError = GoError(deadline: bool, cancelled: bool, text: string)

  datatype ErrorType =
    | Upstream5xx | Upstream429 | Upstream4xx | Unknown
    | UpstreamTimeout | ClientCancelled | ConnectionRefused | ConnectionReset | DnsError | UnknownError

  predicate Contains(s: string, t: string) {
    t <= s || (s != "" && Contains(s[1..], t))
  }

  function ClassifyError(err: Option<GoError>, status: int): ErrorType {
    match err
    case None =>
      if status >= 500 then Upstream5xx
      else if status == 429 then Upstream429
      else if status >= 400 then Upstream4xx
      else Unknown
    case Some(e) =>
      if e.deadline then UpstreamTimeout
      else if e.cancelled then ClientCancelled
      else if Contains(e.text, "connection refused") then ConnectionRefused
      else if Contains(e.text, "connection reset") then ConnectionReset
      else if Contains(e.text, "no such host") then DnsError
      else UnknownError
  }

  predicate IsRetryable(t: ErrorType) {
    t in {UpstreamTimeout, Upstream5xx, Upstream429, ConnectionRefused, ConnectionReset, DnsError}
  }

  /** A status whose response goes straight to the client. */
  predicate CommitsAtOnce(status: int) {
    !IsRetryable(ClassifyError(None, status))
  }

  // ---- The client and the recorder -------------------------------------------------------

  type Header = map<string, seq<string>>

  /** What the client's connection is told to send. */
  datatype Event = StatusLine(status: int, header: Header) | Bytes(data: string)

  class ResponseWriter {
    var header: Header
    var events: seq<Event>

    method WriteHeader(status: int)
      modifies this`events
      ensures events == old(events) + [StatusLine(status, header)]
    {
      events := events + [StatusLine(status, header)];
    }

    method Write(data: string)
      modifies this`events
      ensures events == old(events) + [Bytes(data)]
    {
      events := events + [Bytes(data)];
    }
  }

  const OK := 200
  const BAD_GATEWAY := 502

  class Recorder {
    const w: ResponseWriter
    var header: Header
    var statusCode: int
    var wroteHeader: bool
    var body: string
    var commit: bool

    constructor (w: ResponseWriter)
      ensures this.w == w && header == map[] && statusCode == 0 && !wroteHeader && body == "" && !commit
    {
      this.w, header, statusCode, wroteHeader, body, commit := w, map[], 0, false, "", false;
    }

    /** Copies the recorded headers to the client and sends the status line, once. */
    method Commit()
      modifies this`commit, this`statusCode, w
      ensures commit
      ensures old(commit) ==> w.events == old(w.events) && w.header == old(w.header) && statusCode == old(statusCode)
      ensures !old(commit) ==>
                && statusCode == (if old(statusCode) == 0 then OK else old(statusCode))
                && w.header == old(w.header) + header
                && w.events == old(w.events) + [StatusLine(statusCode, w.header)]
    {
      if commit { return; }
      commit := true;
      var todo := header.Keys;
      while todo != {}
        invariant todo <= header.Keys && w.events == old(w.events) && statusCode == old(statusCode) && commit
        invariant w.header.Keys == old(w.header).Keys + (header.Keys - todo)
        invariant forall k :: k in w.header ==>
                    w.header[k] == if k in header && k !in todo then header[k] else old(w.header)[k]
        decreases todo
      {
        var k :| k in todo;
        w.header := w.header[k := header[k]];
        todo := todo - {k};
      }
      assert w.header == old(w.header) + header;
      if statusCode == 0 { statusCode := OK; }
      w.WriteHeader(statusCode);
    }

    /** The first status decides, by itself, whether the response is buffered. */
    method WriteHeader(status: int)
      modifies this`commit, this`statusCode, this`wroteHeader, w
      ensures wroteHeader
      ensures old(wroteHeader) ==> commit == old(commit) && statusCode == old(statusCode)
                                   && w.events == old(w.events) && w.header == old(w.header)
      ensures !old(wroteHeader) && !old(commit) ==>
                && commit == CommitsAtOnce(status)
                && statusCode == (if status == 0 then OK else status)
                && w.header == (if commit then old(w.header) + header else old(w.header))
                && w.events == old(w.events) + if commit then [StatusLine(statusCode, w.header)] else []
    {
      if wroteHeader { return; }
      statusCode := status;
      wroteHeader := true;
      if !IsRetryable(ClassifyError(None, status)) { Commit(); }
    }

    /** Bytes follow the status: straight to the client, or into the buffer. */
    method Write(data: string)
      modifies this, w
      ensures wroteHeader && header == old(header)
      ensures old(wroteHeader) ==>
                && commit == old(commit) && statusCode == old(statusCode) && w.header == old(w.header)
                && body == (if commit then old(body) else old(body) + data)
                && w.events == old(w.events) + if commit then [Bytes(data)] else []
      ensures !old(wroteHeader) && !old(commit) ==>
                && commit && statusCode == OK && body == old(body) && w.header == old(w.header) + header
                && w.events == old(w.events) + [StatusLine(OK, w.header), Bytes(data)]
    {
      if !wroteHeader { WriteHeader(OK); }
      if commit { w.Write(data); } else { body := body + data; }
    }
  }

  // ---- One attempt ---------------------------------------------------------------------------

  /** What proxy.Forward can come back with. A response carries the status, headers and chunks it
      wrote to the recorder; its error is set when the stream or a write broke afterwards. */
  datatype Outcome =
    | NoResponse(failure: GoError)
    | Response(status: int, header: Header, chunks: seq<string>, err: Option<GoError>)
  {
    predicate Valid() {
      Response? ==> 100 <= status <= 999
    }
    function Status(): int {
      if Response? then status else 0
    }
    function Type(): ErrorType {
      if Response? then ClassifyError(err, status) else ClassifyError(Some(failure), 0)
    }
    /** The attempt counts as a success. */
    predicate Succeeds() {
      Response? && err.None? && CommitsAtOnce(status)
    }
    /** The attempt's output has gone straight to the client. */
    predicate Committed() {
      Response? && CommitsAtOnce(status)
    }
  }

  function Flatten(chunks: seq<string>): string {
    if chunks == [] then "" else Flatten(chunks[..|chunks| - 1]) + chunks[|chunks| - 1]
  }

  function AllBytes(chunks: seq<string>): seq<Event> {
    seq(|chunks|, i requires 0 <= i < |chunks| => Bytes(chunks[i]))
  }

  /** Forward running against a fresh recorder. */
  method Forward(rec: Recorder, o: Outcome)
    requires o.Valid() && !rec.wroteHeader && !rec.commit
    requires rec.header == map[] && rec.body == "" && rec.statusCode == 0
    modifies rec, rec.w
    ensures o.NoResponse? ==> !rec.wroteHeader && rec.w.events == old(rec.w.events) && rec.w.header == old(rec.w.header)
    ensures o.Response? ==> rec.wroteHeader && rec.statusCode == o.status && rec.header == o.header
    ensures rec.commit == o.Committed()
    ensures rec.commit ==>
              && rec.w.header == old(rec.w.header) + o.header
              && rec.w.events == old(rec.w.events) + [StatusLine(o.status, rec.w.header)] + AllBytes(o.chunks)
    ensures !rec.commit ==>
              && rec.w.header == old(rec.w.header) && rec.w.events == old(rec.w.events)
              && (o.Response? ==> rec.body == Flatten(o.chunks))
  {
    if o.NoResponse? { return; }
    rec.header := o.header;
    rec.WriteHeader(o.status);
    ghost var sent := rec.w.events;
    for i := 0 to |o.chunks|
      invariant rec.wroteHeader && rec.statusCode == o.status && rec.header == o.header
      invariant rec.commit == o.Committed()
      invariant rec.w.header == if rec.commit then old(rec.w.header) + o.header else old(rec.w.header)
      invariant rec.w.events == sent + if rec.commit then AllBytes(o.chunks[..i]) else []
      invariant rec.body == if rec.commit then "" else Flatten(o.chunks[..i])
    {
      assert o.chunks[..i + 1][..i] == o.chunks[..i];
      assert AllBytes(o.chunks[..i + 1]) == AllBytes(o.chunks[..i]) + [Bytes(o.chunks[i])];
      rec.Write(o.chunks[i]);
    }
    assert o.chunks[..|o.chunks|] == o.chunks;
  }

  // ---- What the client is sent over all attempts -----------------------------------------------

  function ErrorMessage(t: ErrorType): string {
    match t
    case DnsError => "model service unreachable"
    case ConnectionRefused => "model service unreachable"
    case ConnectionReset => "model service unreachable"
    case UpstreamTimeout => "model service timeout"
    case Upstream5xx => "model service internal error"
    case Upstream429 => "model service rate limited, please retry later"
    case _ => "service unavailable"
  }

  const JSON: seq<string> := ["application/json"]

  function ErrorBody(status: int, t: ErrorType): string {
    "{\"error\":{\"message\":\"" + ErrorMessage(t) + "\",\"type\":\"proxy_error\",\"code\":" + FormatInt(status) + "}}"
  }

  datatype Client = Client(header: Header, events: seq<Event>)

  /** What an attempt sends by itself. */
  function Streamed(c: Client, o: Outcome): Client {
    if o.Committed() then
      var h := c.header + o.header;
      Client(h, c.events + [StatusLine(o.status, h)] + AllBytes(o.chunks))
    else c
  }

  /** What the last failed attempt has sent on top of that: its buffered response, or an error
      made up by the worker. */
  function Flushed(c: Client, o: Outcome): Client {
    if o.Committed() then c
    else if o.Response? then
      var h := c.header + o.header;
      Client(h, c.events + [StatusLine(o.status, h), Bytes(Flatten(o.chunks))])
    else
      var h := c.header["Content-Type" := JSON];
      Client(h, c.events + [StatusLine(BAD_GATEWAY, h), Bytes(ErrorBody(BAD_GATEWAY, o.Type()))])
  }

  datatype Node = Node(id: string, enabled: bool)

  /** An entry of the attempt log; status and error type follow from the outcome. */
  datatype Attempt = Attempt(number: int, node: Node, outcome: Outcome)

  /** What the client is sent by a sequence of attempts. */
  function SentByAll(c: Client, log: seq<Attempt>): Client {
    if log == [] then c else Streamed(SentByAll(c, log[..|log| - 1]), log[|log| - 1].outcome)
  }

  function Sent(c: Client, log: seq<Attempt>, flush: bool): Client {
    var d := SentByAll(c, log);
    if flush && log != [] then Flushed(d, log[|log| - 1].outcome) else d
  }

  // ---- The retry loop ----------------------------------------------------------------------------

  datatype Result =
    | NoNodes                                     // 502, nobody to ask
    | Cancelled                                   // 499
    | Succeeded(status: int, node: string)
    | Failed(status: int, errorType: ErrorType)
    | AllFailed                                   // the statement after the loop

  ghost predicate Available(n: Node, excluded: set<string>) {
    n.enabled && n.id !in excluded
  }

  /** Any available candidate, or none if there is none. */
  method PickNode(candidates: seq<Node>, excluded: set<string>) returns (n: Option<Node>)
    ensures n.None? <==> forall c <- candidates :: !Available(c, excluded)
    ensures n.Some? ==> n.value in candidates && Available(n.value, excluded)
  {
    var available := [];
    for i := 0 to |candidates|
      invariant forall c <- available :: c in candidates && Available(c, excluded)
      invariant forall k :: 0 <= k < i && Available(candidates[k], excluded) ==> candidates[k] in available
    {
      if candidates[i].id !in excluded && candidates[i].enabled { available := available + [candidates[i]]; }
    }
    if |available| == 0 { return None; }
    var k :| 0 <= k < |available|;
    assert available[k] in available;
    n := Some(available[k]);
  }

  method WriteWorkerError(w: ResponseWriter, status: int, t: ErrorType)
    modifies w
    ensures w.header == old(w.header)["Content-Type" := JSON]
    ensures w.events == old(w.events) + [StatusLine(status, w.header), Bytes(ErrorBody(status, t))]
  {
    w.header := w.header["Content-Type" := JSON];
    w.WriteHeader(status);
    w.Write(ErrorBody(status, t));
  }

  /** The recorder holds what the outcome wrote to it. */
  ghost predicate Holds(rec: Recorder, o: Outcome)
    reads rec
  {
    && (o.Response? <==> rec.wroteHeader) && rec.commit == o.Committed()
    && (o.Response? ==> o.Valid() && rec.statusCode == o.status && rec.header == o.header)
    && (o.Response? && !rec.commit ==> rec.body == Flatten(o.chunks))
  }

  /** One attempt through a recorder of its own. */
  method TryOnce(client: ResponseWriter, o: Outcome) returns (rec: Recorder)
    requires o.Valid()
    modifies client
    ensures fresh(rec) && rec.w == client && Holds(rec, o)
    ensures Client(client.header, client.events) == Streamed(old(Client(client.header, client.events)), o)
  {
    rec := new Recorder(client);
    Forward(rec, o);
  }

  /** The last attempt has failed: makes sure the client gets a response. */
  method GiveUp(rec: Recorder, o: Outcome)
    requires Holds(rec, o)
    modifies rec, rec.w
    ensures Client(rec.w.header, rec.w.events) == Flushed(old(Client(rec.w.header, rec.w.events)), o)
  {
    if !rec.commit {
      if rec.wroteHeader {
        rec.Commit();
        rec.w.Write(rec.body);
      } else {
        var sc := o.Status();
        if sc == 0 { sc := BAD_GATEWAY; }
        WriteWorkerError(rec.w, sc, o.Type());
      }
    }
  }

  function Ids(candidates: seq<Node>): set<string> {
    set c | c in candidates && c.enabled :: c.id
  }

  function IdsOf(log: seq<Attempt>): set<string> {
    set a | a in log :: a.node.id
  }

  /** An attempt on an enabled candidate with what the upstream did. */
  ghost predicate AttemptOk(candidates: seq<Node>, upstream: (int, Node) -> Outcome, a: Attempt) {
    a.node in candidates && a.node.enabled && a.outcome == upstream(a.number, a.node)
  }

  /** The attempts made: numbered from one, on enabled candidates with pairwise different IDs, and
      every one but the last a failure. */
  ghost predicate AttemptsOk(candidates: seq<Node>, upstream: (int, Node) -> Outcome, log: seq<Attempt>) {
    && (forall i :: 0 <= i < |log| ==> log[i].number == i + 1 && AttemptOk(candidates, upstream, log[i]))
    && (forall i, j :: 0 <= i < j < |log| ==> log[i].node.id != log[j].node.id)
    && (forall i :: 0 <= i < |log| - 1 ==> !log[i].outcome.Succeeds())
  }

  lemma {:induction false} DistinctIds(log: seq<Attempt>)
    requires forall i, j :: 0 <= i < j < |log| ==> log[i].node.id != log[j].node.id
    ensures |IdsOf(log)| == |log|
  {
    if log != [] {
      var n := |log| - 1;
      DistinctIds(log[..n]);
      assert IdsOf(log) == IdsOf(log[..n]) + {log[n].node.id} by {
        assert log == log[..n] + [log[n]];
      }
    }
  }

  lemma ExtendsIds(candidates: seq<Node>, log: seq<Attempt>, a: Attempt)
    requires forall i, j :: 0 <= i < j < |log| ==> log[i].node.id != log[j].node.id
    requires a.node in candidates && Available(a.node, IdsOf(log)) && IdsOf(log) <= Ids(candidates)
    ensures IdsOf(log + [a]) == IdsOf(log) + {a.node.id} <= Ids(candidates)
    ensures |log| + 1 <= |Ids(candidates)|
  {
    DistinctIds(log);
    assert IdsOf(log + [a]) == IdsOf(log) + {a.node.id};
    SubsetIsSmaller(IdsOf(log) + {a.node.id}, Ids(candidates));
  }

  /** No candidate is available any more exactly when every ID has been tried. */
  lemma NobodyLeft(candidates: seq<Node>, tried: set<string>)
    requires forall c <- candidates :: !Available(c, tried)
    ensures Ids(candidates) <= tried
  {
  }

  /** Where the retry loop stands: failures only, on different enabled candidates. */
  ghost predicate FailedSoFar(candidates: seq<Node>, upstream: (int, Node) -> Outcome, log: seq<Attempt>) {
    && AttemptsOk(candidates, upstream, log)
    && (log != [] ==> !log[|log| - 1].outcome.Succeeds())
    && IdsOf(log) <= Ids(candidates) && |log| <= |Ids(candidates)|
  }

  /** One more attempt, on a node not tried before. */
  lemma ExtendsAttempts(candidates: seq<Node>, upstream: (int, Node) -> Outcome, log: seq<Attempt>, a: Attempt)
    requires FailedSoFar(candidates, upstream, log)
    requires AttemptOk(candidates, upstream, a) && a.number == |log| + 1 && a.node.id !in IdsOf(log)
    ensures AttemptsOk(candidates, upstream, log + [a])
    ensures !a.outcome.Succeeds() ==> FailedSoFar(candidates, upstream, log + [a])
    ensures IdsOf(log + [a]) == IdsOf(log) + {a.node.id} && |log + [a]| <= |Ids(candidates)|
  {
    forall i | 0 <= i < |log| ensures log[i].node.id != a.node.id {
      assert log[i] in log;
    }
    ExtendsIds(candidates, log, a);
  }

  lemma SentByOneMore(c: Client, log: seq<Attempt>, a: Attempt)
    ensures SentByAll(c, log + [a]) == Streamed(SentByAll(c, log), a.outcome)
    ensures Sent(c, log + [a], true) == Flushed(Streamed(SentByAll(c, log), a.outcome), a.outcome)
    ensures a.outcome.Succeeds() ==> Sent(c, log + [a], true) == Streamed(SentByAll(c, log), a.outcome)
  {
    assert (log + [a])[..|log|] == log;
  }

  /** All attempts failed, and the budget is spent or nobody is left to ask. */
  ghost predicate Exhausted(candidates: seq<Node>, maxAttempts: int, log: seq<Attempt>) {
    |log| == maxAttempts || Ids(candidates) <= IdsOf(log)
  }

  /** What each way of returning means. */
  ghost predicate Concludes(res: Result, candidates: seq<Node>, maxAttempts: int, cancelledAt: int -> bool,
                            log: seq<Attempt>)
  {
    var n := |log|;
    match res
    case NoNodes => n == 0 && candidates == []
    case Cancelled =>
      candidates != [] && n < maxAttempts && cancelledAt(n + 1) && (n > 0 ==> !log[n - 1].outcome.Succeeds())
    case Succeeded(status, id) =>
      n > 0 && log[n - 1].outcome.Succeeds() && status == log[n - 1].outcome.Status() && id == log[n - 1].node.id
    case Failed(status, t) =>
      && n > 0 && !log[n - 1].outcome.Succeeds() && Exhausted(candidates, maxAttempts, log)
      && status == log[n - 1].outcome.Status() && t == log[n - 1].outcome.Type()
    case AllFailed => n == 0 && candidates != [] && (maxAttempts < 1 || Ids(candidates) == {})
  }

  /** One attempt and the decision to return or to go on with another node. */
  method AttemptOn(client: ResponseWriter, candidates: seq<Node>, last: bool, tried: set<string>, node: Node,
                   o: Outcome)
    returns (res: Option<Result>)
    requires o.Valid()
    modifies client
    ensures var c0, c := old(Client(client.header, client.events)), Client(client.header, client.events);
            c == if res == Some(Failed(o.Status(), o.Type())) then Flushed(Streamed(c0, o), o) else Streamed(c0, o)
    ensures o.Succeeds() ==> res == Some(Succeeded(o.Status(), node.id))
    ensures !o.Succeeds() ==> res.None? || res == Some(Failed(o.Status(), o.Type()))
    ensures !o.Succeeds() && res.None? ==> !last && exists c <- candidates :: Available(c, tried + {node.id})
    ensures !o.Succeeds() && res.Some? ==> last || Ids(candidates) <= tried + {node.id}
  {
    var rec := TryOnce(client, o);
    if o.Succeeds() { return Some(Succeeded(o.Status(), node.id)); }
    var excluded := tried + {node.id};
    var other := PickNode(candidates, excluded);
    var willRetry := !last && other.Some?;
    if !willRetry {
      if other.None? { NobodyLeft(candidates, excluded); }
      GiveUp(rec, o);
      return Some(Failed(o.Status(), o.Type()));
    }
    res := None;
  }

  /** A call of forwardWithRetry: who is asked, how often, and what the others do. */
  datatype Job = Job(candidates: seq<Node>, maxAttempts: int,
                     upstream: (int, Node) -> Outcome, cancelledAt: int -> bool)

  /** The attempts made, the way the call ends, and what the client has been sent by then. */
  ghost predicate Finished(job: Job, res: Result, log: seq<Attempt>, before: Client, after: Client) {
    && AttemptsOk(job.candidates, job.upstream, log)
    && |log| <= |Ids(job.candidates)| && (log == [] || |log| <= job.maxAttempts)
    && Concludes(res, job.candidates, job.maxAttempts, job.cancelledAt, log)
    && after == Sent(before, log, res.Succeeded? || res.Failed?)
  }

  /** The invariant of the retry loop. */
  ghost predicate Retrying(job: Job, log: seq<Attempt>, before: Client, now: Client) {
    && job.candidates != [] && FailedSoFar(job.candidates, job.upstream, log)
    && (log == [] || |log| < job.maxAttempts)
    && now == SentByAll(before, log)
    && (log != [] ==> exists c <- job.candidates :: Available(c, IdsOf(log)))
  }

  /** The decision after an attempt keeps the invariant or ends the call. */
  lemma AfterAttempt(job: Job, log: seq<Attempt>, a: Attempt, done: Option<Result>,
                     before: Client, now: Client, after: Client)
    requires Retrying(job, log, before, now) && |log| < job.maxAttempts
    requires AttemptOk(job.candidates, job.upstream, a) && a.number == |log| + 1 && a.node.id !in IdsOf(log)
    requires var o := a.outcome;
             && (o.Succeeds() ==> done == Some(Succeeded(o.Status(), a.node.id)) && after == Streamed(now, o))
             && (!o.Succeeds() && done.None? ==>
                   && a.number < job.maxAttempts && after == Streamed(now, o)
                   && exists c <- job.candidates :: Available(c, IdsOf(log) + {a.node.id}))
             && (!o.Succeeds() && done.Some? ==>
                   && done.value == Failed(o.Status(), o.Type()) && after == Flushed(Streamed(now, o), o)
                   && (a.number == job.maxAttempts || Ids(job.candidates) <= IdsOf(log) + {a.node.id}))
    ensures done.None? ==> Retrying(job, log + [a], before, after)
    ensures done.Some? ==> Finished(job, done.value, log + [a], before, after)
  {
    ExtendsAttempts(job.candidates, job.upstream, log, a);
    SentByOneMore(before, log, a);
  }

  method ForwardWithRetry(client: ResponseWriter, job: Job) returns (res: Result, attempts: seq<Attempt>)
    requires forall a, n :: job.upstream(a, n).Valid()
    modifies client
    ensures Finished(job, res, attempts,
                     old(Client(client.header, client.events)), Client(client.header, client.events))
  {
    ghost var c0 := Client(client.header, client.events);
    attempts := [];
    if |job.candidates| == 0 { return NoNodes, attempts; }
    var excluded := {};
    var attempt := 1;
    while attempt <= job.maxAttempts
      invariant attempt == |attempts| + 1 && excluded == IdsOf(attempts)
      invariant Retrying(job, attempts, c0, Client(client.header, client.events))
      decreases job.maxAttempts - attempt
    {
      if job.cancelledAt(attempt) { return Cancelled, attempts; }
      var pick := PickNode(job.candidates, excluded);
      if pick.None? {
        NobodyLeft(job.candidates, excluded);
        break;
      }
      var entry := Attempt(attempt, pick.value, job.upstream(attempt, pick.value));
      ghost var now := Client(client.header, client.events);
      var done := AttemptOn(client, job.candidates, attempt >= job.maxAttempts, excluded, entry.node, entry.outcome);
      AfterAttempt(job, attempts, entry, done, c0, now, Client(client.header, client.events));
      ExtendsIds(job.candidates, attempts, entry);
      attempts := attempts + [entry];
      if done.Some? { return done.value, attempts; }
      excluded := excluded + {entry.node.id};
      attempt := attempt + 1;
    }
    res := AllFailed;
  }

  /** Given a node that is enabled, as all of Router.Resolve's are, and one allowed attempt, the
      break on a nil node and the statement after the loop are unreachable. */
  lemma NeverFallsOutOfTheLoop(job: Job, res: Result, log: seq<Attempt>, before: Client, after: Client)
    requires Finished(job, res, log, before, after)
    requires job.maxAttempts >= 1 && forall c <- job.candidates :: c.enabled
    ensures !res.AllFailed? && (res.NoNodes? <==> job.candidates == [])
  {
    if job.candidates != [] {
      assert job.candidates[0] in job.candidates && job.candidates[0].id in Ids(job.candidates);
    }
  }

  // ---- One response per request ---------------------------------------------------------------

  function StatusLines(events: seq<Event>): nat {
    if events == [] then 0
    else (if events[|events| - 1].StatusLine? then 1 else 0) + StatusLines(events[..|events| - 1])
  }

  /** The bytes of the body, in the order they are sent. */
  function BodyOf(events: seq<Event>): string {
    if events == [] then ""
    else BodyOf(events[..|events| - 1]) + if events[|events| - 1].Bytes? then events[|events| - 1].data else ""
  }

  lemma LastOfSum(a: seq<Event>, b: seq<Event>)
    requires b != []
    ensures StatusLines(a + b) == StatusLines(a + b[..|b| - 1]) + if b[|b| - 1].StatusLine? then 1 else 0
    ensures BodyOf(a + b) == BodyOf(a + b[..|b| - 1]) + if b[|b| - 1].Bytes? then b[|b| - 1].data else ""
  {
    assert (a + b)[..|a + b| - 1] == a + b[..|b| - 1];
    assert (a + b)[|a + b| - 1] == b[|b| - 1];
  }

  lemma {:induction false} StatusLinesOfSum(a: seq<Event>, b: seq<Event>)
    ensures StatusLines(a + b) == StatusLines(a) + StatusLines(b)
    ensures BodyOf(a + b) == BodyOf(a) + BodyOf(b)
  {
    if b == [] {
      assert a + b == a;
      assert BodyOf(a) + "" == BodyOf(a);
    } else {
      var init, last := b[..|b| - 1], b[|b| - 1];
      StatusLinesOfSum(a, init);
      LastOfSum(a, b);
      var data := if last.Bytes? then last.data else "";
      assert BodyOf(b) == BodyOf(init) + data;
      assert BodyOf(a) + BodyOf(init) + data == BodyOf(a) + (BodyOf(init) + data);
    }
  }

  lemma {:induction false} BytesOfChunks(chunks: seq<string>)
    ensures StatusLines(AllBytes(chunks)) == 0 && BodyOf(AllBytes(chunks)) == Flatten(chunks)
  {
    if chunks != [] {
      var n := |chunks| - 1;
      BytesOfChunks(chunks[..n]);
      assert AllBytes(chunks)[..n] == AllBytes(chunks[..n]);
    }
  }

  function CommittedCount(log: seq<Attempt>): nat {
    if log == [] then 0
    else (if log[|log| - 1].outcome.Committed() then 1 else 0) + CommittedCount(log[..|log| - 1])
  }

  lemma LinesOfStreamed(c: Client, o: Outcome)
    ensures StatusLines(Streamed(c, o).events) == StatusLines(c.events) + if o.Committed() then 1 else 0
  {
    if o.Committed() {
      var line := StatusLine(o.status, c.header + o.header);
      StatusLinesOfSum(c.events + [line], AllBytes(o.chunks));
      BytesOfChunks(o.chunks);
      assert (c.events + [line])[..|c.events|] == c.events;
    }
  }

  lemma LinesOfFlushed(c: Client, o: Outcome)
    ensures StatusLines(Flushed(c, o).events) == StatusLines(c.events) + if o.Committed() then 0 else 1
  {
    if !o.Committed() {
      var d := Flushed(c, o);
      var n := |c.events|;
      assert d.events == c.events + [d.events[n]] + [d.events[n + 1]];
      StatusLinesOfSum(c.events + [d.events[n]], [d.events[n + 1]]);
      StatusLinesOfSum(c.events, [d.events[n]]);
    }
  }

  lemma {:induction false} LinesOfAll(c: Client, log: seq<Attempt>)
    ensures StatusLines(SentByAll(c, log).events) == StatusLines(c.events) + CommittedCount(log)
  {
    if log != [] {
      var n := |log| - 1;
      LinesOfAll(c, log[..n]);
      LinesOfStreamed(SentByAll(c, log[..n]), log[n].outcome);
    }
  }

  /** Exactly how many status lines the client is sent: one per attempt that committed, and one
      more when the last attempt had not and the call ends with it. */
  lemma ExactStatusLines(c: Client, log: seq<Attempt>, flush: bool)
    ensures StatusLines(Sent(c, log, flush).events)
            == StatusLines(c.events) + CommittedCount(log)
               + if flush && log != [] && !log[|log| - 1].outcome.Committed() then 1 else 0
  {
    LinesOfAll(c, log);
    if flush && log != [] {
      LinesOfFlushed(SentByAll(c, log), log[|log| - 1].outcome);
    }
  }

  /** No attempt is followed by another after its output went to the client. */
  predicate NoneCommittedBeforeLast(log: seq<Attempt>) {
    forall i :: 0 <= i < |log| - 1 ==> !log[i].outcome.Committed()
  }

  lemma {:induction false} NoneCommitted(c: Client, log: seq<Attempt>)
    ensures CommittedCount(log) == 0 <==> forall i :: 0 <= i < |log| ==> !log[i].outcome.Committed()
    ensures CommittedCount(log) == 0 ==> SentByAll(c, log) == c
  {
    if log != [] {
      var n := |log| - 1;
      NoneCommitted(c, log[..n]);
      if forall i :: 0 <= i < |log| ==> !log[i].outcome.Committed() {
        assert forall i :: 0 <= i < n ==> log[..n][i] == log[i];
      } else if log[n].outcome.Committed() {
      } else {
        var i :| 0 <= i < |log| && log[i].outcome.Committed();
        assert log[..n][i] == log[i];
      }
    }
  }

  /** A call that ends with an attempt sends the client exactly one status line if and only if no
      attempt before the last one had already committed. */
  lemma OneStatusLine(header: Header, log: seq<Attempt>)
    requires log != []
    ensures StatusLines(Sent(Client(header, []), log, true).events) == 1 <==> NoneCommittedBeforeLast(log)
    ensures StatusLines(Sent(Client(header, []), log, true).events) >= 1
  {
    var n := |log| - 1;
    ExactStatusLines(Client(header, []), log, true);
    NoneCommitted(Client(header, []), log[..n]);
    assert CommittedCount(log) == CommittedCount(log[..n]) + if log[n].outcome.Committed() then 1 else 0;
    if NoneCommittedBeforeLast(log) {
      assert forall i :: 0 <= i < n ==> log[..n][i] == log[i];
    } else {
      var i :| 0 <= i < n && log[i].outcome.Committed();
      assert log[..n][i] == log[i];
    }
  }

  /** What a single attempt that ends the call shows the client. */
  function Shown(c: Client, o: Outcome): Client {
    Flushed(Streamed(c, o), o)
  }

  /** Then superseded attempts leave no trace: headers, status and bytes are those of the last
      attempt alone; and a call that gives up on a cancelled request has sent nothing. */
  lemma OnlyTheLastAttemptShows(c: Client, log: seq<Attempt>)
    requires NoneCommittedBeforeLast(log)
    ensures log != [] ==> Sent(c, log, true) == Shown(c, log[|log| - 1].outcome)
    ensures log == [] || !log[|log| - 1].outcome.Committed() ==> Sent(c, log, false) == c
  {
    if log != [] {
      var n := |log| - 1;
      NoneCommitted(c, log[..n]);
      assert forall i :: 0 <= i < n ==> log[..n][i] == log[i];
      assert SentByAll(c, log[..n]) == c;
    }
  }

  /** The events deliver a whole response: one status line, with its headers, then the body. */
  ghost predicate Delivers(events: seq<Event>, status: int, header: Header, body: string) {
    && events != [] && events[0] == StatusLine(status, header)
    && StatusLines(events) == 1 && BodyOf(events) == body
  }

  lemma DeliversStream(status: int, header: Header, chunks: seq<string>)
    ensures Delivers([StatusLine(status, header)] + AllBytes(chunks), status, header, Flatten(chunks))
  {
    var line := [StatusLine(status, header)];
    StatusLinesOfSum(line, AllBytes(chunks));
    BytesOfChunks(chunks);
    assert line[..0] == [];
    assert StatusLines(line) == 1 && BodyOf(line) == "";
  }

  lemma DeliversBuffer(status: int, header: Header, body: string)
    ensures Delivers([StatusLine(status, header), Bytes(body)], status, header, body)
  {
    var line, bytes := [StatusLine(status, header)], [Bytes(body)];
    StatusLinesOfSum(line, bytes);
    assert line[..0] == [] && bytes[..0] == [];
    assert line + bytes == [StatusLine(status, header), Bytes(body)];
    assert StatusLines(line) == 1 && BodyOf(line) == "";
    assert StatusLines(bytes) == 0 && BodyOf(bytes) == body;
  }

  /** The response an outcome stands for, delivered to a client with nothing sent yet. */
  ghost predicate DeliversOutcome(events: seq<Event>, header: Header, o: Outcome) {
    if o.Response? then Delivers(events, o.status, header + o.header, Flatten(o.chunks))
    else Delivers(events, BAD_GATEWAY, header["Content-Type" := JSON], ErrorBody(BAD_GATEWAY, o.Type()))
  }

  lemma ShownDelivers(header: Header, o: Outcome)
    ensures DeliversOutcome(Shown(Client(header, []), o).events, header, o)
  {
    var events := Shown(Client(header, []), o).events;
    if o.Committed() {
      DeliversStream(o.status, header + o.header, o.chunks);
      assert events == [StatusLine(o.status, header + o.header)] + AllBytes(o.chunks);
    } else if o.Response? {
      DeliversBuffer(o.status, header + o.header, Flatten(o.chunks));
      assert events == [StatusLine(o.status, header + o.header), Bytes(Flatten(o.chunks))];
    } else {
      var h, body := header["Content-Type" := JSON], ErrorBody(BAD_GATEWAY, o.Type());
      DeliversBuffer(BAD_GATEWAY, h, body);
      assert events == [StatusLine(BAD_GATEWAY, h), Bytes(body)];
    }
  }

  /** The response delivered is the last attempt's: its status, its headers over those already
      set, and its bytes in order; without a response the client gets a 502. */
  lemma DeliversTheLastResponse(header: Header, log: seq<Attempt>)
    requires log != [] && NoneCommittedBeforeLast(log)
    ensures DeliversOutcome(Sent(Client(header, []), log, true).events, header, log[|log| - 1].outcome)
  {
    OnlyTheLastAttemptShows(Client(header, []), log);
    ShownDelivers(header, log[|log| - 1].outcome);
  }

  /** The upstream answers with a status that goes straight to the client, and then breaks off. */
  predicate BreaksOff(o: Outcome) {
    o.Response? && CommitsAtOnce(o.status) && o.err.Some?
  }

  /** Of the attempts a call can make, those followed by another had committed exactly when their
      response broke off; so an upstream that never breaks off never gets two responses out. */
  lemma CommittedBeforeLast(candidates: seq<Node>, upstream: (int, Node) -> Outcome, log: seq<Attempt>)
    requires AttemptsOk(candidates, upstream, log)
    ensures NoneCommittedBeforeLast(log) <==> forall i :: 0 <= i < |log| - 1 ==> !BreaksOff(log[i].outcome)
    ensures (forall a, n :: !BreaksOff(upstream(a, n))) ==> NoneCommittedBeforeLast(log)
  {
    forall i | 0 <= i < |log| - 1
      ensures log[i].outcome.Committed() <==> BreaksOff(log[i].outcome)
      ensures log[i].outcome == upstream(log[i].number, log[i].node)
    {
      assert AttemptOk(candidates, upstream, log[i]);
    }
  }

  // ---- What a call sends, by the way it ends ----------------------------------------------------

  /** A call that answers sends at least one status line, and exactly one if and only if no attempt
      before the last broke off; a call that ends without an attempt sends nothing, and neither does a
      cancelled one unless an attempt of it broke off. */
  lemma SentByEnding(job: Job, res: Result, log: seq<Attempt>, header: Header, after: Client)
    requires Finished(job, res, log, Client(header, []), after)
    ensures res.Succeeded? || res.Failed? ==>
              && StatusLines(after.events) >= 1
              && (StatusLines(after.events) == 1 <==> forall i :: 0 <= i < |log| - 1 ==> !BreaksOff(log[i].outcome))
    ensures res.NoNodes? || res.AllFailed? ==> after == Client(header, [])
    ensures res.Cancelled? ==> (after == Client(header, []) <==> forall a <- log :: !BreaksOff(a.outcome))
  {
    var c := Client(header, []);
    if res.Succeeded? || res.Failed? {
      OneStatusLine(header, log);
      CommittedBeforeLast(job.candidates, job.upstream, log);
    } else if res.Cancelled? {
      ExactStatusLines(c, log, false);
      NoneCommitted(c, log);
      forall i | 0 <= i < |log| ensures log[i].outcome.Committed() <==> BreaksOff(log[i].outcome) {
        assert AttemptOk(job.candidates, job.upstream, log[i]);
      }
      if forall a <- log :: !BreaksOff(a.outcome) {
        assert forall i :: 0 <= i < |log| ==> log[i] in log;
      }
    }
  }

  /** However the call is set up otherwise, at most one attempt means at most one status line. */
  lemma OneAttemptOneLine(job: Job, res: Result, log: seq<Attempt>, header: Header, after: Client)
    requires Finished(job, res, log, Client(header, []), after)
    requires job.maxAttempts <= 1 || |Ids(job.candidates)| <= 1
    ensures StatusLines(after.events) <= 1
  {
    ExactStatusLines(Client(header, []), log, res.Succeeded? || res.Failed?);
    if log != [] {
      assert log[..|log| - 1] == [];
    }
  }

  const BROKEN := Response(OK, map[], ["data"], Some(GoError(false, false, "unexpected EOF")))

  function FirstBreaks(a: int, n: Node): Outcome {
    if a == 1 then BROKEN else BROKEN.(err := None)
  }

  predicate NeverCancelled(attempt: int) {
    attempt < 0
  }

  function BrokenJob(candidates: seq<Node>, maxAttempts: int): Job {
    Job(candidates, maxAttempts, FirstBreaks, NeverCancelled)
  }

  /** The first attempt breaks off, so it is not the last when another is allowed on another node. */
  lemma NotOneAttempt(candidates: seq<Node>, maxAttempts: int, res: Result, log: seq<Attempt>,
                      before: Client, after: Client)
    requires maxAttempts >= 2 && |Ids(candidates)| >= 2
    requires Finished(BrokenJob(candidates, maxAttempts), res, log, before, after)
    ensures |log| == 2 && res.Succeeded?
  {
    var a, _ := TwoNodes(candidates);
    assert a in candidates;
    if |log| == 1 {
      assert IdsOf(log) == {log[0].node.id};
      if Ids(candidates) <= IdsOf(log) { SubsetIsSmaller(Ids(candidates), IdsOf(log)); }
    } else if |log| >= 2 {
      assert AttemptOk(candidates, FirstBreaks, log[1]);
    }
  }

  lemma BothCommit(candidates: seq<Node>, log: seq<Attempt>)
    requires |log| == 2 && AttemptsOk(candidates, FirstBreaks, log)
    ensures CommittedCount(log) == 2 && log[1].outcome.Succeeds()
  {
    assert log[..1][..0] == [];
    assert CommittedCount(log[..1]) == 1 + CommittedCount(log[..1][..0]);
  }

  /** The loop does retry after a commit: on any two nodes and with two attempts allowed, a stream
      that breaks after a 200 has gone out is followed by another attempt, and the client is sent two
      status lines. */
  method BrokenStreamIsRetried(candidates: seq<Node>, maxAttempts: int) returns (lines: nat)
    requires maxAttempts >= 2 && |Ids(candidates)| >= 2
    ensures lines == 2
  {
    var client := new ResponseWriter;
    client.header, client.events := map[], [];
    var res, log := ForwardWithRetry(client, BrokenJob(candidates, maxAttempts));
    NotOneAttempt(candidates, maxAttempts, res, log, Client(map[], []), Client(client.header, client.events));
    BothCommit(candidates, log);
    ExactStatusLines(Client(map[], []), log, true);
    lines := StatusLines(client.events);
  }

  lemma TwoNodes(candidates: seq<Node>) returns (a: Node, b: Node)
    requires |Ids(candidates)| >= 2
    ensures a in candidates && b in candidates && a.enabled && b.enabled && a.id != b.id
  {
    var x :| x in Ids(candidates);
    if Ids(candidates) - {x} == {} { SubsetIsSmaller(Ids(candidates), {x}); }
    var y :| y in Ids(candidates) - {x};
    a :| a in candidates && a.enabled && a.id == x;
    b :| b in candidates && b.enabled && b.id == y;
  }

  lemma BrokenRun(candidates: seq<Node>, maxAttempts: int, header: Header)
    returns (job: Job, res: Result, log: seq<Attempt>, after: Client)
    requires maxAttempts >= 2 && |Ids(candidates)| >= 2
    ensures job.candidates == candidates && job.maxAttempts == maxAttempts
    ensures Finished(job, res, log, Client(header, []), after) && StatusLines(after.events) == 2
  {
    var a, b := TwoNodes(candidates);
    job := BrokenJob(candidates, maxAttempts);
    log := [Attempt(1, a, FirstBreaks(1, a)), Attempt(2, b, FirstBreaks(2, b))];
    after := Sent(Client(header, []), log, true);
    res := Succeeded(OK, b.id);
    BothCommit(candidates, log);
    ExactStatusLines(Client(header, []), log, true);
  }

  /** A call with these candidates and this budget, and a client that has been sent nothing yet. */
  ghost predicate Ends(candidates: seq<Node>, maxAttempts: int,
                       job: Job, res: Result, log: seq<Attempt>, header: Header, after: Client)
  {
    && job.candidates == candidates && job.maxAttempts == maxAttempts
    && Finished(job, res, log, Client(header, []), after)
  }

  /** For given candidates and a given budget, no call sends two status lines, whatever the upstream
      and the client's cancellation do, if and only if one attempt is all the loop can make. */
  lemma AtMostOneResponse(candidates: seq<Node>, maxAttempts: int, header: Header)
    ensures (forall job, res, log, after ::
               Ends(candidates, maxAttempts, job, res, log, header, after) ==> StatusLines(after.events) <= 1)
            <==> maxAttempts <= 1 || |Ids(candidates)| <= 1
  {
    if maxAttempts <= 1 || |Ids(candidates)| <= 1 {
      forall job, res, log, after | Ends(candidates, maxAttempts, job, res, log, header, after)
        ensures StatusLines(after.events) <= 1
      {
        OneAttemptOneLine(job, res, log, header, after);
      }
    } else {
      var job, res, log, after := BrokenRun(candidates, maxAttempts, header);
      assert Ends(candidates, maxAttempts, job, res, log, header, after);
    }
  }
}
