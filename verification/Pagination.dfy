/** Cursor pagination over sandbox pages (list.go). */
module Pagination {
  import opened ByteStrings
  import opened Options
  import QueryEncoding
  import Sequences

  datatype ListOptions = ListOptions(
    metadata: map<Bytes, Bytes>,
    states: seq<string>,
    limit: int,
    nextToken: string)

  /** One list request; absent parameters are left out of the query. */
  datatype Request = Request(
    metadata: Option<string>,
    states: Option<seq<string>>,
    limit: Option<int>,
    nextToken: Option<string>)

  datatype ListError = TransportFailed | StatusFailed(code: int) | ParseFailed

  /** A 2xx reply may carry no list; the cursor header is read all the same. */
  datatype Reply<Info> = Failed(error: ListError) | Page(items: Option<seq<Info>>, token: string)

  /** What the server answers to the n-th request it receives. */
  type Server<!Info> = (nat, Request) -> Reply<Info>

  function OmitEmpty(s: string): Option<string> { if s == "" then None else Some(s) }

  ghost function MetadataFilter(md: map<Bytes, Bytes>): Option<string> {
    OmitEmpty(QueryEncoding.Encoded(md, Sequences.Enumeration(md.Keys)))
  }

  /** The request for the page at cursor `next`. */
  ghost function RequestFor(opts: ListOptions, next: string): Request {
    Request(
      MetadataFilter(opts.metadata),
      if opts.states == [] then None else Some(opts.states),
      if opts.limit > 0 then Some(opts.limit) else None,
      OmitEmpty(next))
  }

  /** Every page asks for the same metadata, and the server can read it back. */
  lemma {:induction false} RequestCarriesMetadata(opts: ListOptions, next: string)
    ensures RequestFor(opts, next).metadata == None <==> opts.metadata == map[]
    ensures opts.metadata != map[] ==>
      QueryEncoding.DecodeQuery(RequestFor(opts, next).metadata.value) == Some(opts.metadata)
  {
    var order := Sequences.Enumeration(opts.metadata.Keys);
    QueryEncoding.EmptyExactlyWithoutMetadata(opts.metadata, order);
    QueryEncoding.DecodeOfEncode(opts.metadata, order);
  }

  function Items<Info>(items: Option<seq<Info>>): seq<Info> {
    if items.Some? then items.value else []
  }

  /** Fills in the query parameters that are set. */
  method BuildRequest(opts: ListOptions, next: string) returns (request: Request)
    ensures request == RequestFor(opts, next)
    ensures request.nextToken == if next == "" then None else Some(next)
    ensures request.states == if opts.states == [] then None else Some(opts.states)
    ensures request.limit == if opts.limit <= 0 then None else Some(opts.limit)
  {
    hide QueryEncoding.Encoded;
    request := Request(None, None, None, None);
    var md := QueryEncoding.EncodeMetadataQuery(opts.metadata);
    assert md == QueryEncoding.Encoded(opts.metadata, Sequences.Enumeration(opts.metadata.Keys));
    if md != "" {
      request := request.(metadata := Some(md));
    }
    if |opts.states| > 0 {
      request := request.(states := Some(opts.states));
    }
    if opts.limit > 0 {
      request := request.(limit := Some(opts.limit));
    }
    if next != "" {
      request := request.(nextToken := Some(next));
    }
  }

  /** The paginator as a value: its cursor, and the items handed out so far. */
  datatype Cursor<Info> = Cursor(next: string, hasNext: bool, got: seq<Info>)

  function AfterReply<Info>(c: Cursor<Info>, reply: Reply<Info>): Cursor<Info> {
    if !c.hasNext then c
    else match reply
      case Failed(_) => c
      case Page(items, token) => Cursor(token, token != "", c.got + Items(items))
  }

  /** A stateful page iterator. */
  class SandboxPaginator<Info> {
    const opts: ListOptions
    var next: string
    var hasNext: bool
    var requests: nat // requests sent so far
    ghost var got: seq<Info>

    ghost function View(): Cursor<Info>
      reads this
    {
      Cursor(next, hasNext, got)
    }

    constructor (opts: ListOptions)
      ensures this.opts == opts && View() == Cursor(opts.nextToken, true, []) && requests == 0
    {
      this.opts := opts;
      next := opts.nextToken;
      hasNext := true;
      requests := 0;
      got := [];
    }

    method NextItems(server: Server<Info>) returns (page: seq<Info>, err: Option<ListError>)
      modifies this
      ensures !old(hasNext) ==> page == [] && err == None && unchanged(this)
      ensures old(hasNext) ==>
        var reply := server(old(requests), RequestFor(opts, old(next)));
        && requests == old(requests) + 1 && View() == AfterReply(old(View()), reply)
        && page == (if reply.Page? then Items(reply.items) else [])
        && err == (if reply.Failed? then Some(reply.error) else None)
    {
      hide RequestFor;
      if !hasNext {
        return [], None;
      }
      var request := BuildRequest(opts, next);
      var reply := server(requests, request);
      requests := requests + 1;
      match reply
      case Failed(e) =>
        return [], Some(e);
      case Page(items, token) =>
        next := token;
        hasNext := token != "";
        got := got + Items(items);
        return Items(items), None;
    }
  }

  /**
   * The server's token chain from request number `n`: page i is what it answers at cursor tokens[i],
   * and hands out tokens[i + 1]. The chain ends with an empty token, or with the error `err`.
   */
  ghost predicate IsChain<Info>(server: Server<Info>, opts: ListOptions, n: nat,
                                tokens: seq<string>, pages: seq<seq<Info>>, err: Option<ListError>) {
    var last := |pages|;
    && |tokens| == last + 1
    && (forall i :: 0 <= i < last ==> IsPage(server, opts, n, tokens, pages, i))
    && (forall i :: 0 < i < last ==> tokens[i] != "")
    && (err == None ==> last > 0 && tokens[last] == "")
    && (err.Some? ==> (last > 0 ==> tokens[last] != ""))
    && (err.Some? ==> server(n + last, RequestFor(opts, tokens[last])) == Failed(err.value))
  }

  ghost predicate IsPage<Info>(server: Server<Info>, opts: ListOptions, n: nat,
                               tokens: seq<string>, pages: seq<seq<Info>>, i: nat)
    requires i < |pages| && |tokens| == |pages| + 1
  {
    var reply := server(n + i, RequestFor(opts, tokens[i]));
    reply.Page? && Items(reply.items) == pages[i] && reply.token == tokens[i + 1]
  }

  /** The server fixes its chain from a cursor. */
  lemma {:induction false} ChainIsUnique<Info>(server: Server<Info>, opts: ListOptions, n: nat,
      tokens: seq<string>, pages: seq<seq<Info>>, err: Option<ListError>,
      tokens': seq<string>, pages': seq<seq<Info>>, err': Option<ListError>)
    requires IsChain(server, opts, n, tokens, pages, err)
    requires IsChain(server, opts, n, tokens', pages', err')
    requires tokens[0] == tokens'[0]
    ensures tokens == tokens' && pages == pages' && err == err'
  {
    var k := 0;
    while k < |pages| && k < |pages'|
      invariant 0 <= k <= |pages| && k <= |pages'|
      invariant tokens[..k + 1] == tokens'[..k + 1]
      invariant pages[..k] == pages'[..k]
    {
      assert tokens[k] == tokens[..k + 1][k] == tokens'[k];
      assert IsPage(server, opts, n, tokens, pages, k) && IsPage(server, opts, n, tokens', pages', k);
      assert tokens[..k + 2] == tokens[..k + 1] + [tokens[k + 1]];
      assert tokens'[..k + 2] == tokens'[..k + 1] + [tokens'[k + 1]];
      assert pages[..k + 1] == pages[..k] + [pages[k]];
      assert pages'[..k + 1] == pages'[..k] + [pages'[k]];
      k := k + 1;
    }
    assert tokens[k] == tokens[..k + 1][k] == tokens'[k];
    assert k < |pages| ==> IsPage(server, opts, n, tokens, pages, k);
    assert k < |pages'| ==> IsPage(server, opts, n, tokens', pages', k);
  }

  /** The items of the first `k` pages. */
  function Gathered<Info>(pages: seq<seq<Info>>, k: nat): seq<Info>
    requires k <= |pages|
  {
    Sequences.Flatten(pages[..k])
  }

  lemma GatheredEnds<Info>(pages: seq<seq<Info>>)
    ensures Gathered(pages, 0) == [] && Gathered(pages, |pages|) == Sequences.Flatten(pages)
  {
    assert pages[..|pages|] == pages;
  }

  lemma GatheredSnoc<Info>(pages: seq<seq<Info>>, k: nat)
    requires k < |pages|
    ensures Gathered(pages, k + 1) == Gathered(pages, k) + pages[k]
  {
    Sequences.FlattenSnoc(pages[..k], pages[k]);
    assert pages[..k + 1] == pages[..k] + [pages[k]];
  }

  /** What the server answers to request `k` of its chain, if that is sent at all. */
  lemma ServedAt<Info>(server: Server<Info>, opts: ListOptions, tokens: seq<string>, pages: seq<seq<Info>>,
                       err: Option<ListError>, k: nat)
    requires IsChain(server, opts, 0, tokens, pages, err) && k <= |pages|
    requires k == 0 || tokens[k] != ""
    ensures |tokens| == |pages| + 1
    ensures k == |pages| ==> err.Some? && server(k, RequestFor(opts, tokens[k])) == Failed(err.value)
    ensures k < |pages| ==>
      var reply := server(k, RequestFor(opts, tokens[k]));
      && reply.Page? && Items(reply.items) == pages[k] && reply.token == tokens[k + 1]
      && (reply.token == "" ==> k + 1 == |pages| && err == None)
  {
    hide RequestFor;
    assert k < |pages| ==> IsPage(server, opts, 0, tokens, pages, k);
  }

  /** Where a paginator stands on a chain: it has more to ask for, or it is at the end. */
  ghost predicate StandsOn<Info>(p: SandboxPaginator<Info>, tokens: seq<string>, pages: seq<seq<Info>>,
                                 err: Option<ListError>)
    reads p
  {
    && p.requests <= |pages| && p.requests < |tokens| && p.next == tokens[p.requests]
    && if p.hasNext then p.requests == 0 || p.next != "" else p.requests == |pages| && err == None
  }

  /** One turn of the loop of ListAll: the next page of the chain, or the error that ends it. */
  method NextOnChain<Info>(p: SandboxPaginator<Info>, server: Server<Info>,
                           ghost tokens: seq<string>, ghost pages: seq<seq<Info>>, ghost last: Option<ListError>)
      returns (page: seq<Info>, err: Option<ListError>)
    requires IsChain(server, p.opts, 0, tokens, pages, last) && StandsOn(p, tokens, pages, last) && p.hasNext
    modifies p
    ensures err == None ==>
      && StandsOn(p, tokens, pages, last) && p.requests == old(p.requests) + 1
      && page == pages[old(p.requests)]
    ensures err.Some? ==> err == last && old(p.requests) == |pages|
  {
    hide IsChain, IsPage, RequestFor, Items;
    ServedAt(server, p.opts, tokens, pages, last, p.requests);
    page, err := p.NextItems(server);
  }

  /**
   * Drains every page. `tokens`, `pages` and `last` describe the server's finite chain from the
   * starting cursor; the loop needs one call for each page left on it.
   */
  method ListAll<Info>(server: Server<Info>, opts: ListOptions,
                       ghost tokens: seq<string>, ghost pages: seq<seq<Info>>, ghost last: Option<ListError>)
      returns (all: seq<Info>, err: Option<ListError>)
    requires IsChain(server, opts, 0, tokens, pages, last) && tokens[0] == opts.nextToken
    ensures all == Sequences.Flatten(pages) && err == last
  {
    var p := new SandboxPaginator<Info>(opts);
    all := [];
    GatheredEnds(pages);
    assert StandsOn(p, tokens, pages, last);
    hide IsChain, Gathered;
    while p.hasNext
      invariant p.opts == opts && StandsOn(p, tokens, pages, last)
      invariant all == Gathered(pages, p.requests)
      decreases |pages| - p.requests
    {
      ghost var k := p.requests;
      var page, e := NextOnChain(p, server, tokens, pages, last);
      if e != None {
        return all, e;
      }
      GatheredSnoc(pages, k);
      all := all + page;
    }
    return all, None;
  }

  /** The server answers a request the same way whenever it is asked. */
  ghost predicate Stable<Info>(server: Server<Info>) {
    forall n: nat, m: nat, r: Request :: server(n, r) == server(m, r)
  }

  // Against a server given by the pages it holds.

  /** The token that asks for page `i` of a server's pages: none at all for the first. */
  function TokenOf(tokens: seq<string>, i: nat): Option<string>
    requires i < |tokens|
  {
    if i == 0 then None else Some(tokens[i])
  }

  /** The token that comes with page `i`: that of the next page, empty after the last. */
  function TokenAfter(tokens: seq<string>, i: nat): string { if i + 1 < |tokens| then tokens[i + 1] else "" }

  /** The server holds `pages`, each asked for with its token; it looks at the token of a request only. */
  ghost predicate HoldsPages<Info>(server: Server<Info>, pages: seq<seq<Info>>, tokens: seq<string>) {
    && |tokens| == |pages| > 0 && tokens[0] == ""
    && (forall i :: 0 < i < |tokens| ==> tokens[i] != "")
    && (forall i :: 0 <= i < |tokens| ==>
          AnswersWith(server, TokenOf(tokens, i), Page(Some(pages[i]), TokenAfter(tokens, i))))
  }

  /** Every request with this token, and whatever else, gets this reply. */
  ghost predicate AnswersWith<Info>(server: Server<Info>, token: Option<string>, reply: Reply<Info>) {
    forall n: nat, r: Request :: r.nextToken == token ==> server(n, r) == reply
  }

  /** Every request of a run carries its cursor, and the caller's states and positive limit. */
  lemma RequestCarriesCursor(opts: ListOptions, next: string)
    ensures RequestFor(opts, next).nextToken == if next == "" then None else Some(next)
    ensures RequestFor(opts, next).states == if opts.states == [] then None else Some(opts.states)
    ensures RequestFor(opts, next).limit == if opts.limit <= 0 then None else Some(opts.limit)
  {
    hide MetadataFilter;
  }

  lemma HeldPageAt<Info>(server: Server<Info>, opts: ListOptions, pages: seq<seq<Info>>, tokens: seq<string>,
                         n: nat, i: nat)
    requires HoldsPages(server, pages, tokens) && i < |pages|
    ensures server(n, RequestFor(opts, tokens[i])) == Page(Some(pages[i]), TokenAfter(tokens, i))
  {
    RequestCarriesCursor(opts, tokens[i]);
    hide RequestFor;
    assert AnswersWith(server, TokenOf(tokens, i), Page(Some(pages[i]), TokenAfter(tokens, i)));
    assert RequestFor(opts, tokens[i]).nextToken == TokenOf(tokens, i);
  }

  /** From the token of page i the server's chain is its pages from i on. */
  lemma HeldPagesAreTheChain<Info>(server: Server<Info>, opts: ListOptions, pages: seq<seq<Info>>,
                                   tokens: seq<string>, i: nat)
    requires HoldsPages(server, pages, tokens) && i < |pages|
    ensures IsChain(server, opts, 0, tokens[i..] + [""], pages[i..], None)
  {
    var (chain, rest) := (tokens[i..] + [""], pages[i..]);
    forall k | 0 <= k < |rest|
      ensures IsPage(server, opts, 0, chain, rest, k)
    {
      HeldPageAt(server, opts, pages, tokens, k, i + k);
      hide HoldsPages, RequestFor;
      assert chain[k] == tokens[i + k] && rest[k] == pages[i + k];
    }
  }

  /** Listing from the token of page i returns the held pages from i on, in order; from no token, all of them. */
  method ListHeldPages<Info>(server: Server<Info>, opts: ListOptions,
                             ghost pages: seq<seq<Info>>, ghost tokens: seq<string>, ghost i: nat)
      returns (all: seq<Info>, err: Option<ListError>)
    requires HoldsPages(server, pages, tokens) && i < |pages| && opts.nextToken == tokens[i]
    ensures all == Sequences.Flatten(pages[i..]) && err == None
  {
    HeldPagesAreTheChain(server, opts, pages, tokens, i);
    hide HoldsPages, IsChain, Sequences.Flatten;
    all, err := ListAll(server, opts, tokens[i..] + [""], pages[i..], None);
  }

  lemma ChainSuffix<Info>(server: Server<Info>, opts: ListOptions,
      tokens: seq<string>, pages: seq<seq<Info>>, err: Option<ListError>, k: nat)
    requires Stable(server) && IsChain(server, opts, 0, tokens, pages, err)
    requires k <= |pages| && (k == |pages| ==> err.Some?)
    ensures IsChain(server, opts.(nextToken := tokens[k]), 0, tokens[k..], pages[k..], err)
  {
    var resumed := opts.(nextToken := tokens[k]);
    forall i | 0 <= i < |pages| - k ensures IsPage(server, resumed, 0, tokens[k..], pages[k..], i) {
      assert IsPage(server, opts, 0, tokens, pages, k + i);
    }
  }

  /**
   * Stopping after k pages and resuming from NextToken. While HasNext holds the two parts make up
   * the whole listing. Once HasNext is false the token is empty, so a resumed listing starts over.
   */
  lemma ResumeFromNextToken<Info>(server: Server<Info>, opts: ListOptions,
      tokens: seq<string>, pages: seq<seq<Info>>, k: nat,
      resumedTokens: seq<string>, resumedPages: seq<seq<Info>>)
    requires Stable(server) && IsChain(server, opts, 0, tokens, pages, None)
    requires k <= |pages|
    requires IsChain(server, opts.(nextToken := tokens[k]), 0, resumedTokens, resumedPages, None)
    requires resumedTokens[0] == tokens[k]
    ensures var together := Sequences.Flatten(pages[..k]) + Sequences.Flatten(resumedPages);
      if k < |pages| then together == Sequences.Flatten(pages)
      else together == Sequences.Flatten(pages) <==> Sequences.Flatten(resumedPages) == []
  {
    if k < |pages| {
      ChainSuffix(server, opts, tokens, pages, None, k);
      ChainIsUnique(server, opts.(nextToken := tokens[k]), 0,
                    tokens[k..], pages[k..], None, resumedTokens, resumedPages, None);
      Sequences.FlattenConcat(pages[..k], pages[k..]);
      assert pages == pages[..k] + pages[k..];
    } else {
      assert pages[..k] == pages;
    }
  }

  function AfterReplies<Info>(c: Cursor<Info>, replies: seq<Reply<Info>>): Cursor<Info> {
    if replies == [] then c
    else AfterReply(AfterReplies(c, replies[..|replies| - 1]), replies[|replies| - 1])
  }

  function Successes<Info>(replies: seq<Reply<Info>>): nat {
    if replies == [] then 0
    else Successes(replies[..|replies| - 1]) + if replies[|replies| - 1].Page? then 1 else 0
  }

  /** Each reply is either a failure or the page at the cursor it was asked for. */
  ghost predicate Answers<Info>(server: Server<Info>, opts: ListOptions, c: Cursor<Info>, replies: seq<Reply<Info>>) {
    forall i :: 0 <= i < |replies| && replies[i].Page? ==>
      replies[i] == server(0, RequestFor(opts, AfterReplies(c, replies[..i]).next))
  }

  /** The cursor after the first `k` pages of a chain. */
  function CursorAt<Info>(tokens: seq<string>, pages: seq<seq<Info>>, k: nat): Cursor<Info>
    requires k <= |pages| && |tokens| == |pages| + 1
  {
    Cursor(tokens[k], k < |pages|, Gathered(pages, k))
  }

  /** One more reply: a page moves the cursor on by one, a failure and an ended listing leave it. */
  lemma ReplyMovesOn<Info>(server: Server<Info>, opts: ListOptions, tokens: seq<string>, pages: seq<seq<Info>>,
                           k: nat, reply: Reply<Info>)
    requires Stable(server) && IsChain(server, opts, 0, tokens, pages, None) && k <= |pages|
    requires reply.Page? ==> reply == server(0, RequestFor(opts, tokens[k]))
    ensures AfterReply(CursorAt(tokens, pages, k), reply)
         == CursorAt(tokens, pages, if reply.Page? && k < |pages| then k + 1 else k)
  {
    hide RequestFor, Gathered;
    if k < |pages| && reply.Page? {
      assert IsPage(server, opts, 0, tokens, pages, k);
      assert server(k, RequestFor(opts, tokens[k])) == server(0, RequestFor(opts, tokens[k]));
      GatheredSnoc(pages, k);
    }
  }

  /**
   * Retrying after failures, however often they come: after any run the caller has exactly the pages
   * of the chain up to the number of successful calls, and the cursor stands at the next one.
   */
  lemma {:induction false} RetriesLoseNothing<Info>(server: Server<Info>, opts: ListOptions,
      tokens: seq<string>, pages: seq<seq<Info>>, replies: seq<Reply<Info>>)
    requires Stable(server) && IsChain(server, opts, 0, tokens, pages, None)
    requires Answers(server, opts, Cursor(tokens[0], true, []), replies)
    ensures var done := Successes(replies);
      var k := if done < |pages| then done else |pages|;
      AfterReplies(Cursor(tokens[0], true, []), replies) == CursorAt(tokens, pages, k)
  {
    if replies == [] {
      GatheredEnds(pages);
    } else {
      var last := |replies| - 1;
      var before := replies[..last];
      forall i | 0 <= i < last ensures before[..i] == replies[..i] {}
      RetriesLoseNothing(server, opts, tokens, pages, before);
      var k := if Successes(before) < |pages| then Successes(before) else |pages|;
      ReplyMovesOn(server, opts, tokens, pages, k, replies[last]);
      hide IsChain, Stable, RequestFor, AfterReply, CursorAt;
    }
  }
}
