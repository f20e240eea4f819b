/** Reading the host's tool catalog page by page. */
module Catalog {
  import opened Wrappers
  import opened BridgeCalls
  import opened BridgeOutput

  const MAX_CATALOG := 1024
  const PAGE_LIMIT := 32

  /** The `nextOffset` of a page: absent or of another type, null, or a number. */
  datatype NextOffset = Malformed | Null | At(offset: nat)

  /** A page as the host sends it. A tool is its JSON encoding; `wellFormed` stands for the protocol
      version, the capabilities, the page size and the shape of every entry. */
  datatype Reply = Failure(error: string) | Page(wellFormed: bool, tools: seq<string>, next: NextOffset)

  datatype PageEnd = More(offset: nat) | Complete

  /** The next offset ends the catalog or lies behind this page's, up to 1024. */
  predicate LeadsOn(next: NextOffset, offset: nat) {
    next == Null || (next.At? && offset < next.offset <= 1024)
  }

  /** `list_page`: the accepted tools and where the next page starts. */
  function ListPage(reply: Reply, offset: nat, limit: nat): (r: Result<(seq<string>, PageEnd)>)
    ensures r.Ok? ==> && reply.Page? && reply.wellFormed && r.value.0 == reply.tools
                      && |reply.tools| <= limit && offset + |reply.tools| <= MAX_CATALOG
    ensures r.Ok? <==> reply.Page? && reply.wellFormed && |reply.tools| <= limit && offset + |reply.tools| <= 1024
                       && LeadsOn(reply.next, offset)
    ensures r.Ok? ==> reply.next == (if r.value.1.More? then At(r.value.1.offset) else Null)
    ensures r.Ok? && r.value.1.More? ==> offset < r.value.1.offset <= MAX_CATALOG
  {
    match reply
    case Failure(e) => Err("ToolProgram (action 30) unavailable: " + e)
    case Page(wellFormed, tools, next) =>
      if !wellFormed then Err("unsupported or invalid catalog page")
      else if |tools| > limit then Err("catalog page exceeds requested limit")
      else if offset + |tools| > MAX_CATALOG then Err("catalog exceeds extension limit: 1024 entries")
      else match next
        case Null => Ok((tools, Complete))
        case At(n) => if offset < n <= MAX_CATALOG then Ok((tools, More(n))) else Err("invalid catalog nextOffset")
        case Malformed => Err("invalid catalog nextOffset")
  }

  /** The tools of the first pages that the host sent, in order. */
  function ToolsOf(replies: seq<Reply>): seq<string> {
    if replies == [] then []
    else
      var last := replies[|replies| - 1];
      ToolsOf(replies[..|replies| - 1]) + if last.Page? then last.tools else []
  }

  lemma ToolsMore(replies: seq<Reply>, r: Reply)
    ensures ToolsOf(replies + [r]) == ToolsOf(replies) + if r.Page? then r.tools else []
  {
    assert (replies + [r])[..|replies|] == replies;
  }

  /** The requested offsets rise strictly from 0 to at most 1024. */
  ghost predicate Rising(host: nat -> Reply, requests: seq<nat>, replies: seq<Reply>) {
    && |requests| == |replies| <= MAX_CATALOG + 1
    && (requests != [] ==> requests[0] == 0)
    && (forall i, j :: 0 <= i < j < |requests| ==> requests[i] < requests[j])
    && (forall i :: 0 <= i < |requests| ==> requests[i] <= MAX_CATALOG && replies[i] == host(i))
  }

  /** Every page so far was accepted, and the last one led to `offset`. */
  ghost predicate Linked(requests: seq<nat>, replies: seq<Reply>, offset: nat) {
    && |requests| == |replies| <= offset <= MAX_CATALOG && (requests == [] ==> offset == 0)
    && (forall i :: 0 <= i < |requests| ==> requests[i] < offset)
    && (forall i :: 0 <= i < |replies| ==> Accepted(replies[i]))
    && (forall i :: 0 <= i < |replies| ==>
          replies[i].next == At(if i + 1 < |requests| then requests[i + 1] else offset))
  }

  predicate Accepted(r: Reply) {
    r.Page? && r.wellFormed && |r.tools| <= PAGE_LIMIT
  }

  lemma RisingMore(host: nat -> Reply, requests: seq<nat>, replies: seq<Reply>, offset: nat)
    requires Rising(host, requests, replies) && Linked(requests, replies, offset)
    ensures Rising(host, requests + [offset], replies + [host(|requests|)])
  {
  }

  lemma LinkedMore(requests: seq<nat>, replies: seq<Reply>, offset: nat, reply: Reply, n: nat)
    requires Linked(requests, replies, offset) && Accepted(reply) && reply.next == At(n) && offset < n <= MAX_CATALOG
    ensures Linked(requests + [offset], replies + [reply], n)
  {
  }

  /** A complete catalog: every page accepted, each leading to the next, the last one to none. */
  ghost predicate WholeCatalog(requests: seq<nat>, replies: seq<Reply>) {
    && requests != [] && |requests| == |replies| && replies[|replies| - 1].Page? && replies[|replies| - 1].next == Null
    && (forall i :: 0 <= i < |replies| ==> Accepted(replies[i]))
    && (forall i :: 0 <= i < |replies| - 1 ==> replies[i].next == At(requests[i + 1]))
  }

  lemma LinkedWhole(requests: seq<nat>, replies: seq<Reply>, offset: nat, reply: Reply)
    requires Linked(requests, replies, offset) && Accepted(reply) && reply.next == Null
    ensures WholeCatalog(requests + [offset], replies + [reply])
  {
  }

  /** A page that keeps its own limits and those of the catalog, with what was read before it. */
  predicate PageOk(reply: Reply, offset: nat, before: seq<string>) {
    && reply.Page? && reply.wellFormed && |reply.tools| <= 32 && offset + |reply.tools| <= 1024
    && LeadsOn(reply.next, offset)
    && |before + reply.tools| <= 1024 && |Encoded(before + reply.tools)| <= 1_048_576
  }

  /** One page read and added to the catalog, within the catalog's own budget. */
  function Extend(catalog: seq<string>, reply: Reply, offset: nat): (r: Result<(seq<string>, PageEnd)>)
    ensures r.Ok? <==> PageOk(reply, offset, catalog)
    ensures r.Ok? ==> && reply.Page? && Accepted(reply) && r.value.0 == catalog + reply.tools
                      && |r.value.0| <= MAX_CATALOG && |Encoded(r.value.0)| <= MAX_JSON
                      && reply.next == (if r.value.1.More? then At(r.value.1.offset) else Null)
    ensures r.Ok? && r.value.1.More? ==> offset < r.value.1.offset <= MAX_CATALOG
  {
    match ListPage(reply, offset, PAGE_LIMIT)
    case Err(e) => Err(e)
    case Ok((tools, end)) =>
      if |catalog + tools| > MAX_CATALOG || |Encoded(catalog + tools)| > MAX_JSON
      then Err("full catalog budget exceeded")
      else Ok((catalog + tools, end))
  }

  /** The page loop, against any host: `host` gives the answer to its n-th request and `env` what
      the bridge's check sees before it. It ends after at most 1025 requests, because each page's
      offset is larger than the last; a catalog that it accepts is all the tools of all the pages,
      at most 1024 of them, and encodes within 1 MiB. It is refused only when the bridge's check fails or
      the last page breaks a limit. */
  method LoadCatalog(host: nat -> Reply, env: nat -> Env, fatal: Option<string>)
    returns (r: Result<seq<string>>, requests: seq<nat>, replies: seq<Reply>)
    ensures Rising(host, requests, replies)
    ensures r.Ok? ==> && WholeCatalog(requests, replies) && r.value == ToolsOf(replies)
                      && |r.value| <= MAX_CATALOG && |Encoded(r.value)| <= MAX_JSON
    ensures r.Err? ==> Stopped(env(|requests|), fatal) || LastBreaks(requests, replies)
  {
    hide *;
    var catalog: seq<string> := [];
    var offset := 0;
    requests, replies := [], [];
    NoPages(host);
    while true
      invariant Rising(host, requests, replies) && Linked(requests, replies, offset) && offset <= MAX_CATALOG
      invariant catalog == ToolsOf(replies)
      decreases MAX_CATALOG - offset
    {
      var error := Check(BridgeCalls.Start({}).(fatal := fatal), env(|requests|));
      CheckStops(env(|requests|), fatal);
      if error.Some? { return Err(error.value), requests, replies; }
      var reply := host(|requests|);
      RisingMore(host, requests, replies, offset);
      ToolsMore(replies, reply);
      var page := Extend(catalog, reply, offset);
      ghost var asked, read := requests, replies;
      if page.Ok? && page.value.1.More? {
        LinkedMore(requests, replies, offset, reply, page.value.1.offset);
      }
      if page.Ok? && page.value.1.Complete? {
        LinkedWhole(requests, replies, offset, reply);
      }
      requests := requests + [offset];
      replies := replies + [reply];
      if page.Err? {
        LastPage(asked, read, offset, reply, catalog);
        return Err(page.error), requests, replies;
      }
      catalog := page.value.0;
      match page.value.1 {
        case More(n) => offset := n;
        case Complete => return Ok(catalog), requests, replies;
      }
    }
  }

  /** What makes the bridge's check fail. */
  predicate Stopped(env: Env, fatal: Option<string>) {
    env.cancelled || env.expired || env.outOfMemory || fatal != None
  }

  lemma CheckStops(env: Env, fatal: Option<string>)
    ensures Check(BridgeCalls.Start({}).(fatal := fatal), env).Some? <==> Stopped(env, fatal)
  {
  }

  ghost predicate LastBreaks(requests: seq<nat>, replies: seq<Reply>) {
    && requests != [] && |requests| == |replies|
    && !PageOk(replies[|replies| - 1], requests[|requests| - 1], ToolsOf(replies[..|replies| - 1]))
  }

  lemma LastPage(requests: seq<nat>, replies: seq<Reply>, offset: nat, reply: Reply, catalog: seq<string>)
    requires |requests| == |replies| && catalog == ToolsOf(replies) && !PageOk(reply, offset, catalog)
    ensures LastBreaks(requests + [offset], replies + [reply])
  {
    hide PageOk, ToolsOf;
    assert (replies + [reply])[..|replies|] == replies;
  }

  lemma NoPages(host: nat -> Reply)
    ensures Rising(host, [], []) && Linked([], [], 0) && ToolsOf([]) == []
  {
  }
}
