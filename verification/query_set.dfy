/** The pagination cursor `BaseQuerySet`: it turns the page-based listing of
    one resource kind into a flat sequence of records. Its state is the
    number of records returned so far (`counter`), the index within the
    current page (`iter_count`), the current page token (`page`), the current
    page (`json_data`) and the total captured from the first page
    (`result_count`). Every operation also reports the queries it sent to the
    client, in order, so that "no fetch" and "exactly one fetch" are stated
    facts rather than comments. */
module QuerySet {
  import opened Wrappers
  import opened Records
  import opened Api
  import opened PageToken

  /** The token of the first page; its query is `?page=1`. */
  const FirstToken: string := "1"

  datatype Cursor = Cursor(
    kind: Kind,
    counter: nat,
    iterCount: nat,
    token: string,
    data: Page,
    resultCount: nat)

  /** The ways a call on the cursor can fail. */
  datatype Error =
    | ClientFailure(cause: ClientError)  // the client raised while fetching a page
    | MissingNext                        // `re.match` applied to a `next` of None
    | NoPageParameter                    // the `next` URL does not match, `.group` on None
    | EmptyPage                          // `results[0]` of a freshly fetched empty page

  /** What one call of `__next__` signals: a record, the end of iteration,
      or an error raised to the caller. */
  datatype Outcome = Yield(record: Record) | Stop | Fail(error: Error)

  /** One call of `__next__`: its outcome, the cursor afterwards (also after
      a failure, the state the source leaves behind) and the queries sent. */
  datatype Transition = Transition(outcome: Outcome, cursor: Cursor, queries: seq<string>)

  /** Construction of a query set: the cursor, or the client's failure, and
      the queries sent. */
  datatype Opened = Opened(result: Result<Cursor, Error>, queries: seq<string>)

  /** The invariant every reachable cursor keeps: no more records returned
      than the first page announced. */
  predicate Valid(c: Cursor)
  {
    c.counter <= c.resultCount
  }

  /** The current page is used up: the next record is not in it. */
  predicate AtBoundary(c: Cursor)
  {
    c.iterCount >= |c.data.results|
  }

  /** `BaseQuerySet.__init__` for a query set of `kind`: one fetch of the
      first page, both counters at zero and the total taken from that page. */
  function Open(kind: Kind, client: Client): (o: Opened)
    ensures o.queries == ["?page=1"]
    ensures o.result.Success? <==> client.fetchPage(kind, "?page=1").Success?
    ensures o.result.Failure? ==>
      o.result.error == ClientFailure(client.fetchPage(kind, "?page=1").error)
    ensures o.result.Success? ==>
      && client.fetchPage(kind, "?page=1") == Success(o.result.value.data)
      && o.result.value.kind == kind
      && o.result.value.counter == 0
      && o.result.value.iterCount == 0
      && o.result.value.resultCount == o.result.value.data.count
      && Valid(o.result.value)
  {
    var q := Query(FirstToken);
    assert q == "?page=1";
    match client.fetchPage(kind, q)
    case Failure(e) => Opened(Failure(ClientFailure(e)), [q])
    case Success(p) => Opened(Success(Cursor(kind, 0, 0, FirstToken, p, p.count)), [q])
  }

  /** `BaseQuerySet.__next__`. Its behaviour in each case is stated by the
      lemmas below; the contract states what holds for every call. A record
      returned is `Record(kind, item)`, the object that
      `return_func(item)` builds and that `Records.Construct` is proved to
      produce. */
  function Next(c: Cursor, client: Client): (t: Transition)
    // the kind and the total never change, and the invariant is kept
    ensures t.cursor.kind == c.kind && t.cursor.resultCount == c.resultCount
    ensures Valid(c) ==> Valid(t.cursor)
    // end of iteration is signalled exactly when all records were returned,
    // and then nothing changes and nothing is fetched
    ensures t.outcome.Stop? <==> c.counter == c.resultCount
    ensures t.outcome.Stop? ==> t.cursor == c && t.queries == []
    // every record returned counts once, and is the item just before the
    // index the cursor is left at, in the page it is left holding: no item
    // is skipped when a page is entered at index 1
    ensures t.outcome.Yield? ==>
      && t.cursor.counter == c.counter + 1
      && 1 <= t.cursor.iterCount <= |t.cursor.data.results|
      && t.outcome.record == Record(c.kind, t.cursor.data.results[t.cursor.iterCount - 1])
    // at most one fetch per call, and none unless the page is used up
    ensures |t.queries| <= 1
    ensures |t.queries| == 1 ==> c.counter != c.resultCount && AtBoundary(c)
  {
    if c.counter == c.resultCount then
      Transition(Stop, c, [])
    else if c.iterCount < |c.data.results| then
      Transition(Yield(Record(c.kind, c.data.results[c.iterCount])),
                 c.(counter := c.counter + 1, iterCount := c.iterCount + 1), [])
    else if c.data.next.None? then
      Transition(Fail(MissingNext), c, [])
    else
      var token := ExtractToken(c.data.next.value);
      if token.None? then
        Transition(Fail(NoPageParameter), c, [])
      else
        var q := Query(token.value);
        var moved := c.(token := token.value);
        match client.fetchPage(c.kind, q)
        case Failure(e) =>
          Transition(Fail(ClientFailure(e)), moved, [q])
        case Success(p) =>
          var fetched := moved.(data := p, counter := c.counter + 1, iterCount := 1);
          if |p.results| == 0 then Transition(Fail(EmptyPage), fetched, [q])
          else Transition(Yield(Record(c.kind, p.results[0])), fetched, [q])
  }

  /** Within a page: the record of the item at the index, both counters up
      by one, the page and its token kept, no fetch. */
  lemma InPageStep(c: Cursor, client: Client)
    requires c.counter != c.resultCount && !AtBoundary(c)
    ensures Next(c, client).outcome == Yield(Record(c.kind, c.data.results[c.iterCount]))
    ensures Next(c, client).cursor == c.(counter := c.counter + 1, iterCount := c.iterCount + 1)
    ensures Next(c, client).queries == []
  {
  }

  /** At a page boundary with records still owed, the one query sent is that
      of the token after the last `page=` of the `next` URL, and it is sent
      exactly when that URL is present and matches. */
  lemma BoundaryQuery(c: Cursor, client: Client)
    requires c.counter != c.resultCount && AtBoundary(c)
    ensures |Next(c, client).queries| == 1 <==>
      c.data.next.Some? && ExtractToken(c.data.next.value).Some?
    ensures |Next(c, client).queries| == 1 ==>
      && Next(c, client).queries[0] == Query(ExtractToken(c.data.next.value).value)
      && Next(c, client).cursor.token == ExtractToken(c.data.next.value).value
  {
  }

  /** A page boundary crossed with a usable `next` link and a non-empty page
      behind it: one fetch of that page's query, the page replaces the old
      one, and its first item is returned with the index left at 1, so that
      the following call reads its second item. */
  lemma BoundaryStep(c: Cursor, client: Client, q: string, p: Page)
    requires c.counter != c.resultCount && AtBoundary(c)
    requires c.data.next.Some? && ExtractToken(c.data.next.value).Some?
    requires q == Query(ExtractToken(c.data.next.value).value)
    requires client.fetchPage(c.kind, q) == Success(p) && |p.results| > 0
    ensures Next(c, client).outcome == Yield(Record(c.kind, p.results[0]))
    ensures Next(c, client).queries == [q]
    ensures Next(c, client).cursor
         == c.(token := ExtractToken(c.data.next.value).value, data := p,
               counter := c.counter + 1, iterCount := 1)
  {
  }

  /** The failures of a boundary step. Without a `next` URL, or with one the
      pattern does not match, the call fails before changing anything or
      fetching. When the client fails, only the token has moved. When the
      fetched page is empty, the page, the counter and the index have
      already moved, and no record is returned. */
  lemma BoundaryFailures(c: Cursor, client: Client)
    requires c.counter != c.resultCount && AtBoundary(c)
    ensures c.data.next.None? ==> Next(c, client) == Transition(Fail(MissingNext), c, [])
    ensures c.data.next.Some? && ExtractToken(c.data.next.value).None? ==>
      Next(c, client) == Transition(Fail(NoPageParameter), c, [])
    ensures c.data.next.Some? && ExtractToken(c.data.next.value).Some? ==>
      var token := ExtractToken(c.data.next.value).value;
      var q := Query(token);
      && (client.fetchPage(c.kind, q).Failure? ==>
            Next(c, client) == Transition(Fail(ClientFailure(client.fetchPage(c.kind, q).error)),
                                          c.(token := token), [q]))
      && (client.fetchPage(c.kind, q).Success? && client.fetchPage(c.kind, q).value.results == [] ==>
            Next(c, client) == Transition(Fail(EmptyPage),
                                          c.(token := token, data := client.fetchPage(c.kind, q).value,
                                             counter := c.counter + 1, iterCount := 1), [q]))
  {
  }

  /** `BaseQuerySet.count`: the total captured at construction. */
  function Count(c: Cursor): nat
  {
    c.resultCount
  }

  /** `n` successive calls of `__next__`, whatever each of them signals. */
  datatype Trace = Trace(outcomes: seq<Outcome>, cursor: Cursor, queries: seq<string>)

  function Run(c: Cursor, client: Client, n: nat): (tr: Trace)
    ensures |tr.outcomes| == n
    decreases n
  {
    if n == 0 then Trace([], c, [])
    else
      var t := Next(c, client);
      var rest := Run(t.cursor, client, n - 1);
      Trace([t.outcome] + rest.outcomes, rest.cursor, t.queries + rest.queries)
  }

  /** `count()` answers the same before, during and after any number of
      calls of `__next__`, and it is the total of the first page. */
  lemma {:induction false} CountIsStable(c: Cursor, client: Client, n: nat)
    ensures Count(Run(c, client, n).cursor) == Count(c)
    decreases n
  {
    if n > 0 {
      CountIsStable(Next(c, client).cursor, client, n - 1);
    }
  }

  /** No sequence of calls of `__next__` makes the cursor return more
      records than the total. */
  lemma {:induction false} RunKeepsValid(c: Cursor, client: Client, n: nat)
    requires Valid(c)
    ensures Valid(Run(c, client, n).cursor)
    decreases n
  {
    if n > 0 {
      RunKeepsValid(Next(c, client).cursor, client, n - 1);
    }
  }

  /** Once the end of iteration is signalled, every later call signals it
      again, changes nothing and fetches nothing. */
  lemma {:induction false} EndIsTerminal(c: Cursor, client: Client, n: nat)
    requires c.counter == c.resultCount
    ensures forall i :: 0 <= i < n ==> Run(c, client, n).outcomes[i] == Stop
    ensures Run(c, client, n).cursor == c
    ensures Run(c, client, n).queries == []
    decreases n
  {
    if n > 0 {
      EndIsTerminal(c, client, n - 1);
    }
  }

  /** Consuming the cursor the way a `for` loop does: records until the end
      of iteration or until the first error. */
  datatype Drained = Drained(records: seq<Record>, error: Option<Error>, cursor: Cursor, queries: seq<string>)

  function Drain(c: Cursor, client: Client): (d: Drained)
    requires Valid(c)
    ensures Valid(d.cursor) && d.cursor.resultCount == c.resultCount
    ensures |d.records| <= c.resultCount - c.counter
    ensures d.error.None? ==>
      && d.cursor.counter == d.cursor.resultCount
      && |d.records| == c.resultCount - c.counter
    decreases c.resultCount - c.counter
  {
    var t := Next(c, client);
    match t.outcome
    case Stop => Drained([], None, c, [])
    case Fail(e) => Drained([], Some(e), t.cursor, t.queries)
    case Yield(r) =>
      var rest := Drain(t.cursor, client);
      Drained([r] + rest.records, rest.error, rest.cursor, t.queries + rest.queries)
  }

  /** A call that returns a record is followed by the rest of the loop. */
  lemma DrainAfterYield(c: Cursor, client: Client)
    requires Valid(c) && Next(c, client).outcome.Yield?
    ensures Drain(c, client).records
         == [Next(c, client).outcome.record] + Drain(Next(c, client).cursor, client).records
    ensures Drain(c, client).error == Drain(Next(c, client).cursor, client).error
    ensures Drain(c, client).queries
         == Next(c, client).queries + Drain(Next(c, client).cursor, client).queries
  {
  }
}
