/** What iterating a query set to the end yields. A well-formed page chain
    is the sequence of pages the server hands out from page 1 on, each
    reached through the `next` URL of the one before it; over such a chain
    the cursor returns exactly the announced number of records, in
    page-then-index order, fetching each page once and no page early. */
module Consumption {
  import opened Wrappers
  import opened Records
  import opened Api
  import opened PageToken
  import opened QuerySet

  /** The items of the first `n` pages, in page-then-index order. */
  function ItemsBefore(ps: seq<Page>, n: nat): seq<Item>
    requires n <= |ps|
  {
    if n == 0 then [] else ItemsBefore(ps, n - 1) + ps[n - 1].results
  }

  /** All items of the pages, in page-then-index order. */
  function Flatten(ps: seq<Page>): seq<Item>
  {
    ItemsBefore(ps, |ps|)
  }

  /** The records the model objects of `kind` built from `items` form. */
  function AsRecords(kind: Kind, items: seq<Item>): (rs: seq<Record>)
    ensures |rs| == |items|
    ensures forall i :: 0 <= i < |items| ==> rs[i] == Record(kind, items[i])
  {
    if |items| == 0 then [] else [Record(kind, items[0])] + AsRecords(kind, items[1..])
  }

  /** `q` is the query the cursor sends when it leaves page `p`. */
  predicate LinksTo(p: Page, q: string)
  {
    && p.next.Some?
    && ExtractToken(p.next.value).Some?
    && q == Query(ExtractToken(p.next.value).value)
  }

  /** Page `i` of the chain is what the client returns for query `i`, its
      `next` link leads to query `i + 1` when it is not the last page, and
      it has items when it is not the first. */
  predicate ChainLink(client: Client, kind: Kind, ps: seq<Page>, qs: seq<string>, i: nat)
    requires i < |ps| == |qs|
  {
    && client.fetchPage(kind, qs[i]) == Success(ps[i])
    && (i + 1 < |ps| ==> LinksTo(ps[i], qs[i + 1]))
    && (i > 0 ==> |ps[i].results| > 0)
  }

  /** `ps` are the pages the client returns for the queries `qs`, starting at
      page 1 and following `next` links; every page after the first has at
      least one item; together they hold at least the total the first page
      announces, and the last page is needed to reach it. */
  predicate WellFormedChain(client: Client, kind: Kind, ps: seq<Page>, qs: seq<string>)
  {
    && |ps| >= 1 && |qs| == |ps|
    && qs[0] == Query(FirstToken)
    && (forall i: nat :: i < |ps| ==> ChainLink(client, kind, ps, qs, i))
    && ps[0].count <= |Flatten(ps)|
    && (|ps| == 1 || |ItemsBefore(ps, |ps| - 1)| < ps[0].count)
  }

  /** The cursor holds page `pi` of the chain, and has returned every item
      of the pages before it and the first `iterCount` items of this one. */
  predicate AtChain(c: Cursor, kind: Kind, ps: seq<Page>, pi: nat)
  {
    && pi < |ps|
    && c.kind == kind
    && c.data == ps[pi]
    && c.resultCount == ps[0].count
    && c.iterCount <= |ps[pi].results|
    && c.counter == |ItemsBefore(ps, pi)| + c.iterCount
    && Valid(c)
  }

  /** The items of fewer pages come first in the items of more pages. */
  lemma {:induction false} ItemsBeforePrefix(ps: seq<Page>, i: nat, j: nat)
    requires i <= j <= |ps|
    ensures ItemsBefore(ps, i) <= ItemsBefore(ps, j)
    decreases j
  {
    if i < j {
      ItemsBeforePrefix(ps, i, j - 1);
    }
  }

  /** Item `k` of page `pi` sits right after the items of the pages before. */
  lemma ItemsIndex(ps: seq<Page>, pi: nat, k: nat)
    requires pi < |ps| && k < |ps[pi].results|
    ensures |ItemsBefore(ps, pi)| + k < |Flatten(ps)|
    ensures Flatten(ps)[|ItemsBefore(ps, pi)| + k] == ps[pi].results[k]
  {
    ItemsBeforePrefix(ps, pi + 1, |ps|);
  }

  /** The first item of page `i` follows the items of the pages before. */
  lemma FirstItemOfPage(ps: seq<Page>, i: nat)
    requires i < |ps| && |ps[i].results| > 0
    ensures |ItemsBefore(ps, i)| < |Flatten(ps)|
    ensures Flatten(ps)[|ItemsBefore(ps, i)|] == ps[i].results[0]
  {
    ItemsIndex(ps, i, 0);
  }

  /** A position past the end of page `pi` that is still short of the
      chain's items is not past the last page. */
  lemma NextPageExists(ps: seq<Page>, pi: nat, position: nat)
    requires pi < |ps|
    requires position == |ItemsBefore(ps, pi)| + |ps[pi].results|
    requires position < |Flatten(ps)|
    ensures pi + 1 < |ps|
    ensures position == |ItemsBefore(ps, pi + 1)|
  {
  }

  /** One call of `__next__` on a chain with records still owed returns the
      next item of the chain and moves at most one page on, fetching that
      page with the query the chain names for it. */
  lemma ChainStep(client: Client, kind: Kind, ps: seq<Page>, qs: seq<string>, c: Cursor, pi: nat)
    returns (pi': nat)
    requires WellFormedChain(client, kind, ps, qs)
    requires AtChain(c, kind, ps, pi)
    requires c.counter < c.resultCount
    ensures c.counter < |Flatten(ps)|
    ensures Next(c, client).outcome == Yield(Record(kind, Flatten(ps)[c.counter]))
    ensures AtChain(Next(c, client).cursor, kind, ps, pi')
    ensures pi' <= pi + 1
    ensures Next(c, client).queries + qs[pi' + 1..] == qs[pi + 1..]
  {
    if c.iterCount < |ps[pi].results| {
      ChainStepInPage(client, kind, ps, qs, c, pi);
      pi' := pi;
    } else {
      ChainStepAcross(client, kind, ps, qs, c, pi);
      pi' := pi + 1;
      assert qs[pi + 1..] == [qs[pi + 1]] + qs[pi + 2..];
    }
  }

  lemma ChainStepInPage(client: Client, kind: Kind, ps: seq<Page>, qs: seq<string>, c: Cursor, pi: nat)
    requires WellFormedChain(client, kind, ps, qs)
    requires AtChain(c, kind, ps, pi)
    requires c.counter < c.resultCount
    requires c.iterCount < |ps[pi].results|
    ensures c.counter < |Flatten(ps)|
    ensures Next(c, client).outcome == Yield(Record(kind, Flatten(ps)[c.counter]))
    ensures AtChain(Next(c, client).cursor, kind, ps, pi)
    ensures Next(c, client).queries == []
  {
    ItemsIndex(ps, pi, c.iterCount);
    InPageStep(c, client);
  }

  lemma ChainStepAcross(client: Client, kind: Kind, ps: seq<Page>, qs: seq<string>, c: Cursor, pi: nat)
    requires WellFormedChain(client, kind, ps, qs)
    requires AtChain(c, kind, ps, pi)
    requires c.counter < c.resultCount
    requires c.iterCount == |ps[pi].results|
    ensures pi + 1 < |ps|
    ensures c.counter < |Flatten(ps)|
    ensures Next(c, client).outcome == Yield(Record(kind, Flatten(ps)[c.counter]))
    ensures AtChain(Next(c, client).cursor, kind, ps, pi + 1)
    ensures Next(c, client).queries == [qs[pi + 1]]
  {
    NextPageExists(ps, pi, c.counter);
    assert ChainLink(client, kind, ps, qs, pi);
    assert ChainLink(client, kind, ps, qs, pi + 1);
    FirstItemOfPage(ps, pi + 1);
    BoundaryStep(c, client, qs[pi + 1], ps[pi + 1]);
  }

  /** Once no record is owed, the cursor is on the last page of the chain. */
  lemma ChainEndsOnLastPage(client: Client, kind: Kind, ps: seq<Page>, qs: seq<string>, c: Cursor, pi: nat)
    requires WellFormedChain(client, kind, ps, qs)
    requires AtChain(c, kind, ps, pi)
    requires c.counter == c.resultCount
    ensures pi == |ps| - 1
  {
    if pi < |ps| - 1 {
      ItemsBeforePrefix(ps, pi + 1, |ps| - 1);
      assert false;
    }
  }

  /** A record returned by the first call heads the records of the loop. */
  lemma DrainConsumes(c: Cursor, client: Client, items: seq<Item>, rest: seq<string>)
    requires Valid(c) && |items| > 0
    requires Next(c, client).outcome == Yield(Record(c.kind, items[0]))
    requires Drain(Next(c, client).cursor, client).records == AsRecords(c.kind, items[1..])
    requires Drain(Next(c, client).cursor, client).error == None
    requires Drain(Next(c, client).cursor, client).queries == rest
    ensures Drain(c, client).records == AsRecords(c.kind, items)
    ensures Drain(c, client).error == None
    ensures Drain(c, client).queries == Next(c, client).queries + rest
  {
    DrainAfterYield(c, client);
  }

  /** With no record owed, the loop ends at once, fetching nothing. */
  lemma ChainDrainAtEnd(client: Client, kind: Kind, ps: seq<Page>, qs: seq<string>, c: Cursor, pi: nat)
    requires WellFormedChain(client, kind, ps, qs)
    requires AtChain(c, kind, ps, pi)
    requires c.counter == c.resultCount
    ensures Drain(c, client) == Drained([], None, c, [])
    ensures AsRecords(kind, Flatten(ps)[c.counter..c.resultCount]) == []
    ensures qs[pi + 1..] == []
  {
    ChainEndsOnLastPage(client, kind, ps, qs, c, pi);
  }

  /** From any position on a well-formed chain, consuming the cursor yields
      the rest of the announced items in order, ends without error, and
      fetches exactly the remaining pages of the chain, in order. */
  lemma {:induction false} ChainDrain(client: Client, kind: Kind, ps: seq<Page>, qs: seq<string>, c: Cursor, pi: nat)
    requires WellFormedChain(client, kind, ps, qs)
    requires AtChain(c, kind, ps, pi)
    ensures c.resultCount <= |Flatten(ps)|
    ensures Drain(c, client).error == None
    ensures Drain(c, client).records == AsRecords(kind, Flatten(ps)[c.counter..c.resultCount])
    ensures Drain(c, client).queries == qs[pi + 1..]
    decreases c.resultCount - c.counter
  {
    if c.counter == c.resultCount {
      ChainDrainAtEnd(client, kind, ps, qs, c, pi);
    } else {
      var t := Next(c, client);
      var pi' := ChainStep(client, kind, ps, qs, c, pi);
      ChainDrain(client, kind, ps, qs, t.cursor, pi');
      DrainRemaining(c, client, Flatten(ps), qs[pi' + 1..]);
    }
  }

  /** One yielded item followed by a drain of the rest of the announced
      items is a drain of all the remaining announced items. */
  lemma DrainRemaining(c: Cursor, client: Client, all: seq<Item>, rest: seq<string>)
    requires Valid(c) && c.counter < c.resultCount <= |all|
    requires Next(c, client).outcome == Yield(Record(c.kind, all[c.counter]))
    requires Drain(Next(c, client).cursor, client).records
          == AsRecords(c.kind, all[c.counter + 1..c.resultCount])
    requires Drain(Next(c, client).cursor, client).error == None
    requires Drain(Next(c, client).cursor, client).queries == rest
    ensures Drain(c, client).records == AsRecords(c.kind, all[c.counter..c.resultCount])
    ensures Drain(c, client).error == None
    ensures Drain(c, client).queries == Next(c, client).queries + rest
  {
    var items := all[c.counter..c.resultCount];
    assert items[1..] == all[c.counter + 1..c.resultCount];
    DrainConsumes(c, client, items, rest);
  }

  /** Iterating a fresh query set over a well-formed chain to the end: it
      yields exactly the announced number of records, the items of the
      chain in page-then-index order with none skipped or repeated, ends
      without error, and sends exactly one query per page of the chain,
      page 1 at construction and each later page only when it is reached. */
  lemma FullConsumption(client: Client, kind: Kind, ps: seq<Page>, qs: seq<string>)
    requires WellFormedChain(client, kind, ps, qs)
    ensures Open(kind, client).result.Success?
    ensures Drain(Open(kind, client).result.value, client).error == None
    ensures Drain(Open(kind, client).result.value, client).records
         == AsRecords(kind, Flatten(ps)[..ps[0].count])
    ensures Open(kind, client).queries + Drain(Open(kind, client).result.value, client).queries == qs
  {
    var o := Open(kind, client);
    assert qs[0] == "?page=1";
    assert ChainLink(client, kind, ps, qs, 0);
    var c := o.result.value;
    ChainDrain(client, kind, ps, qs, c, 0);
    assert [qs[0]] + qs[1..] == qs;
  }

  /** A page whose `next` is absent while records are still owed: the rest
      of its items come out, then the call that needs the next page fails,
      without any fetch. */
  lemma {:induction false} MissingNextFails(client: Client, c: Cursor)
    requires Valid(c)
    requires c.iterCount <= |c.data.results|
    requires c.counter + (|c.data.results| - c.iterCount) < c.resultCount
    requires c.data.next.None?
    ensures Drain(c, client).records == AsRecords(c.kind, c.data.results[c.iterCount..])
    ensures Drain(c, client).error == Some(MissingNext)
    ensures Drain(c, client).queries == []
    decreases |c.data.results| - c.iterCount
  {
    if c.iterCount < |c.data.results| {
      var t := Next(c, client);
      MissingNextFails(client, t.cursor);
      assert c.data.results[c.iterCount..][1..] == c.data.results[c.iterCount + 1..];
    }
  }

  /** The same fault met from construction: a first page that announces
      more items than it holds and has no `next` yields its own items, then
      fails, after the single fetch of page 1. */
  lemma ShortLastPageFails(client: Client, kind: Kind, p: Page)
    requires client.fetchPage(kind, "?page=1") == Success(p)
    requires |p.results| < p.count
    requires p.next.None?
    ensures Open(kind, client).result.Success?
    ensures Drain(Open(kind, client).result.value, client).records == AsRecords(kind, p.results)
    ensures Drain(Open(kind, client).result.value, client).error == Some(MissingNext)
    ensures Open(kind, client).queries + Drain(Open(kind, client).result.value, client).queries == ["?page=1"]
  {
    var c := Open(kind, client).result.value;
    MissingNextFails(client, c);
    assert p.results[0..] == p.results;
  }

  /** Abandoning a query set after its first record: when page 1 holds an
      item and announces at least one, the first call returns that item and
      fetches nothing, so the only request made is the one at construction. */
  lemma FirstRecordWithoutFetch(client: Client, kind: Kind, p: Page)
    requires client.fetchPage(kind, "?page=1") == Success(p)
    requires |p.results| > 0 && p.count > 0
    ensures Open(kind, client).result.Success?
    ensures Next(Open(kind, client).result.value, client).outcome == Yield(Record(kind, p.results[0]))
    ensures Open(kind, client).queries + Next(Open(kind, client).result.value, client).queries == ["?page=1"]
  {
    InPageStep(Open(kind, client).result.value, client);
  }
}
