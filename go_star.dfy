/**
 * The Go star pipeline (star/link_processor.go, star/manager.go): collect the
 * links of a parsed README, look up the star count of every github.com link,
 * fall back to the cached count when the lookup fails, and record fresh
 * counts in the cache.
 *
 * `url.Parse` is the parameter `parseUrl`, the GraphQL query is `query`, the
 * DynamoDB table `awesome_list_stars` is the map `cache` from repo URL to
 * count (a read fails exactly when the key is missing), and whether a write
 * to it succeeds is `putOk`. Logging is left out.
 */
module GoStar {
  import opened Wrappers
  import opened GoMarkdown
  import GoGit

  const GitHubHostName := "github.com"
  const RepoReadmeFile := "README.md"

  /** A parsed URL: what `Hostname()` reports, the path, and what `String()` gives back. */
  datatype GoUrl = GoUrl(hostname: string, path: string, text: string)

  /** A `*ast.Link`: its identity and its destination. */
  datatype LinkRef = LinkRef(id: nat, destination: string)

  /** The two maps of a link processor: every link seen, and the github.com ones with their URL. */
  datatype Seen = Seen(links: set<nat>, linkUrlMap: map<nat, GoUrl>)

  /** What `SaveLink` does to the maps. */
  function Saved(s: Seen, link: Option<LinkRef>, parseUrl: string -> Option<GoUrl>): Seen {
    if link.None? || link.value.id in s.links then s
    else
      var links := s.links + {link.value.id};
      var u := parseUrl(link.value.destination);
      if u.None? || u.value.hostname != GitHubHostName then Seen(links, s.linkUrlMap)
      else Seen(links, s.linkUrlMap[link.value.id := u.value])
  }

  /** The maps agree: only seen links have a URL, and every URL is on github.com. */
  predicate Tracked(s: Seen) {
    && s.linkUrlMap.Keys <= s.links
    && forall id :: id in s.linkUrlMap ==> s.linkUrlMap[id].hostname == GitHubHostName
  }

  /**
   * A new link is always recorded as seen; it gains a URL exactly when its
   * destination parses and names github.com. Nil and a link seen before
   * change nothing.
   */
  lemma SavedSpec(s: Seen, link: Option<LinkRef>, parseUrl: string -> Option<GoUrl>)
    ensures link.None? ==> Saved(s, link, parseUrl) == s
    ensures link.Some? && link.value.id in s.links ==> Saved(s, link, parseUrl) == s
    ensures link.Some? ==> Saved(s, link, parseUrl).links == s.links + {link.value.id}
    ensures link.Some? && link.value.id !in s.links ==>
              var u := parseUrl(link.value.destination);
              && (u.Some? && u.value.hostname == GitHubHostName ==>
                    Saved(s, link, parseUrl).linkUrlMap == s.linkUrlMap[link.value.id := u.value])
              && (u.None? || u.value.hostname != GitHubHostName ==> Saved(s, link, parseUrl).linkUrlMap == s.linkUrlMap)
  {
  }

  /** Saving a link twice is saving it once. */
  lemma SavedIdempotent(s: Seen, link: Option<LinkRef>, parseUrl: string -> Option<GoUrl>)
    ensures Saved(Saved(s, link, parseUrl), link, parseUrl) == Saved(s, link, parseUrl)
  {
  }

  /** `SaveLink` keeps the two maps in agreement. */
  lemma SavedTracked(s: Seen, link: Option<LinkRef>, parseUrl: string -> Option<GoUrl>)
    requires Tracked(s)
    ensures Tracked(Saved(s, link, parseUrl))
  {
  }

  /** The star count `getStarCountFor` reports: as the Go client's, but 0 rather than -1 on failure. */
  function GetStarCountFor(u: GoUrl, query: (string, string) -> Result<int, string>): (r: (int, Option<string>))
    ensures r.1.Some? ==> r.0 == 0
    ensures GoGit.RepoOf(u.path).owner == "" ==> r == (0, Some(GoGit.MissingOwnerOrName))
    ensures r.1.None? ==> GoGit.RepoOf(u.path).owner != ""
                          && query(GoGit.RepoOf(u.path).owner, GoGit.RepoOf(u.path).name).Ok?
                          && r.0 == query(GoGit.RepoOf(u.path).owner, GoGit.RepoOf(u.path).name).value
    ensures var repo := GoGit.RepoOf(u.path);
            repo.owner != "" && query(repo.owner, repo.name).Ok? ==> r == (query(repo.owner, repo.name).value, None)
    ensures var repo := GoGit.RepoOf(u.path);
            repo.owner != "" && query(repo.owner, repo.name).Err? ==>
              r == (0, Some("unable fetch repo stars, " + query(repo.owner, repo.name).error))
  {
    GoGit.StarsOrFailure(u.path, query, 0)
  }

  class LinkProcessor {
    var links: set<nat>
    var linkUrlMap: map<nat, GoUrl>

    constructor ()
      ensures links == {} && linkUrlMap == map[]
    {
      links := {};
      linkUrlMap := map[];
    }

    function State(): Seen
      reads this
    {
      Seen(links, linkUrlMap)
    }

    /** `SaveLink`: nil and seen links are ignored; a new one is recorded, and filed with its URL if that is on github.com. */
    method SaveLink(link: Option<LinkRef>, parseUrl: string -> Option<GoUrl>)
      modifies this
      ensures State() == Saved(old(State()), link, parseUrl)
    {
      if link.None? {
        return;
      }
      if link.value.id in links {
        return;
      }
      links := links + {link.value.id};
      var u := parseUrl(link.value.destination);
      if u.None? {
        return;
      }
      if u.value.hostname != GitHubHostName {
        return;
      }
      linkUrlMap := linkUrlMap[link.value.id := u.value];
    }

    /** `addStarTo`: the same edit as `StarLink`, on the link's parent block. */
    method AddStarTo(parent: Block, link: LinkRef, star: int)
      requires IndexOfLink(parent.children, link.id).Some?
      modifies parent
      ensures star < 1 ==> parent.children == old(parent.children)
      ensures star >= 1 ==> parent.children == WithBadge(old(parent.children), link.id, star)
    {
      StarLink(parent, link.id, star);
    }
  }

  /** The links of a tree in pre-order: the node itself, then each child's subtree from left to right. */
  function LinksOf(node: Node): seq<LinkRef>
    decreases node, 1
  {
    (if node.kind.Link? then [LinkRef(node.kind.id, node.kind.destination)] else [])
    + LinksOfAll(node.children)
  }

  function LinksOfAll(nodes: seq<Node>): seq<LinkRef>
    decreases nodes, 0
  {
    if nodes == [] then []
    else LinksOfAll(nodes[..|nodes| - 1]) + LinksOf(nodes[|nodes| - 1])
  }

  /** The maps after saving `links` one after the other. */
  function SaveAll(s: Seen, links: seq<LinkRef>, parseUrl: string -> Option<GoUrl>): Seen {
    if links == [] then s
    else Saved(SaveAll(s, links[..|links| - 1], parseUrl), Some(links[|links| - 1]), parseUrl)
  }

  lemma {:induction false} SaveAllAppend(s: Seen, a: seq<LinkRef>, b: seq<LinkRef>, parseUrl: string -> Option<GoUrl>)
    ensures SaveAll(s, a + b, parseUrl) == SaveAll(SaveAll(s, a, parseUrl), b, parseUrl)
    decreases |b|
  {
    if b == [] {
      assert a + b == a;
    } else {
      assert (a + b)[..|a + b| - 1] == a + b[..|b| - 1];
      SaveAllAppend(s, a, b[..|b| - 1], parseUrl);
    }
  }

  /** Saving up to child `i + 1` is saving up to child `i`, then the links of child `i`. */
  lemma SaveChildStep(s: Seen, own: seq<LinkRef>, children: seq<Node>, i: nat, parseUrl: string -> Option<GoUrl>)
    requires i < |children|
    ensures SaveAll(s, own + LinksOfAll(children[..i + 1]), parseUrl)
            == SaveAll(SaveAll(s, own + LinksOfAll(children[..i]), parseUrl), LinksOf(children[i]), parseUrl)
  {
    var done := own + LinksOfAll(children[..i]);
    assert children[..i + 1][..i] == children[..i];
    assert LinksOfAll(children[..i + 1]) == LinksOfAll(children[..i]) + LinksOf(children[i]);
    assert own + LinksOfAll(children[..i + 1]) == done + LinksOf(children[i]);
    SaveAllAppend(s, done, LinksOf(children[i]), parseUrl);
  }

  /** After saving a run of links, every one of them is seen, and nothing seen before is forgotten. */
  lemma {:induction false} SaveAllSeen(s: Seen, links: seq<LinkRef>, parseUrl: string -> Option<GoUrl>)
    ensures s.links <= SaveAll(s, links, parseUrl).links
    ensures forall k :: 0 <= k < |links| ==> links[k].id in SaveAll(s, links, parseUrl).links
  {
    if links != [] {
      var init := links[..|links| - 1];
      SaveAllSeen(s, init, parseUrl);
      forall k | 0 <= k < |links| - 1 ensures links[k].id in SaveAll(s, links, parseUrl).links {
        assert links[k] == init[k];
      }
    }
  }

  /** Saving a run of links keeps the maps in agreement. */
  lemma {:induction false} SaveAllTracked(s: Seen, links: seq<LinkRef>, parseUrl: string -> Option<GoUrl>)
    requires Tracked(s)
    ensures Tracked(SaveAll(s, links, parseUrl))
  {
    if links != [] {
      SaveAllTracked(s, links[..|links| - 1], parseUrl);
      SavedTracked(SaveAll(s, links[..|links| - 1], parseUrl), Some(links[|links| - 1]), parseUrl);
    }
  }

  /** The per-link outcome of the star loop: the cache, and the count each link's badge shows. */
  datatype StarState = StarState(cache: map<string, int>, badges: map<nat, int>)

  /** What `addStarTo(link, n)` leaves on a link: a badge for a count of at least 1, nothing otherwise. */
  function Badged(badges: map<nat, int>, id: nat, n: int): map<nat, int> {
    if n < 1 then badges else badges[id := n]
  }

  /**
   * One pass of the star loop over the link `id`, whose URL text is `key`,
   * given the lookup's answer `r`: on a successful lookup the count is shown
   * and written to the cache (a failed write is ignored); on a failed lookup
   * the cached count is shown if there is one, and nothing happens if there
   * is none.
   */
  function Step(st: StarState, id: nat, key: string, r: (int, Option<string>), putOk: string -> bool): StarState {
    if r.1.Some? then
      if key in st.cache then StarState(st.cache, Badged(st.badges, id, st.cache[key])) else st
    else
      var badges := Badged(st.badges, id, r.0);
      if putOk(key) then StarState(st.cache[key := r.0], badges) else StarState(st.cache, badges)
  }

  /** The pass over the link `id` and its URL `u`, with the lookup `getStarCountFor` makes. */
  function StarStep(st: StarState, id: nat, u: GoUrl, query: (string, string) -> Result<int, string>,
                    putOk: string -> bool): StarState
  {
    Step(st, id, u.text, GetStarCountFor(u, query), putOk)
  }

  /** The three outcomes of one pass, as the loop's comments and branches describe them. */
  lemma StepCases(st: StarState, id: nat, key: string, r: (int, Option<string>), putOk: string -> bool)
    ensures var next := Step(st, id, key, r, putOk);
            && (r.1.None? ==> next.badges == Badged(st.badges, id, r.0))
            && (r.1.None? && putOk(key) ==> next.cache == st.cache[key := r.0])
            && (r.1.None? && !putOk(key) ==> next.cache == st.cache)
            && (r.1.Some? && key in st.cache ==> next == StarState(st.cache, Badged(st.badges, id, st.cache[key])))
            && (r.1.Some? && key !in st.cache ==> next == st)
  {
  }

  /** A successful lookup of at least 1 is shown on the link. */
  lemma StepShows(st: StarState, id: nat, key: string, r: (int, Option<string>), putOk: string -> bool)
    requires r.1.None? && r.0 >= 1
    ensures var next := Step(st, id, key, r, putOk);
            id in next.badges && next.badges[id] == r.0
  {
  }

  /** One pass changes the badge of its own link only. */
  lemma StepKeepsOthers(st: StarState, id: nat, key: string, r: (int, Option<string>), putOk: string -> bool, other: nat)
    requires other != id
    ensures var next := Step(st, id, key, r, putOk);
            (other in next.badges <==> other in st.badges)
            && (other in st.badges ==> next.badges[other] == st.badges[other])
  {
    var n := if r.1.None? then r.0 else if key in st.cache then st.cache[key] else 0;
    assert Step(st, id, key, r, putOk).badges == Badged(st.badges, id, n);
  }

  /** What one pass needs of a link: its URL text, which is the cache key, and the answer of its lookup. */
  datatype Lookup = Lookup(key: string, answer: (int, Option<string>))

  /** The lookup `getStarCountFor` makes for each link with a URL. */
  function Lookups(urls: map<nat, GoUrl>, query: (string, string) -> Result<int, string>): map<nat, Lookup> {
    map id | id in urls :: Lookup(urls[id].text, GetStarCountFor(urls[id], query))
  }

  /** A pass with the lookup made on the spot is the pass with the precomputed lookup. */
  lemma LookupsAgree(st: StarState, id: nat, urls: map<nat, GoUrl>, query: (string, string) -> Result<int, string>,
                     putOk: string -> bool)
    requires id in urls
    ensures id in Lookups(urls, query)
    ensures Lookups(urls, query)[id].answer == GetStarCountFor(urls[id], query)
    ensures StarStep(st, id, urls[id], query, putOk)
            == Step(st, id, Lookups(urls, query)[id].key, Lookups(urls, query)[id].answer, putOk)
  {
  }

  /** One more pass of the loop, with the lookup made on the spot. */
  lemma StarAllStep(st: StarState, order: seq<nat>, i: nat, urls: map<nat, GoUrl>,
                    query: (string, string) -> Result<int, string>, putOk: string -> bool)
    requires i < |order| && forall j :: 0 <= j < |order| ==> order[j] in Lookups(urls, query)
    ensures order[i] in urls
    ensures StarAll(st, order[..i + 1], Lookups(urls, query), putOk)
            == StarStep(StarAll(st, order[..i], Lookups(urls, query), putOk), order[i], urls[order[i]], query, putOk)
  {
    var looks := Lookups(urls, query);
    StarAllLast(st, order, i, looks, putOk);
    LookupsAgree(StarAll(st, order[..i], looks, putOk), order[i], urls, query, putOk);
  }

  /** The loop as the Go code runs it: each link is looked up when its turn comes. */
  function StarLoop(st: StarState, order: seq<nat>, urls: map<nat, GoUrl>,
                    query: (string, string) -> Result<int, string>, putOk: string -> bool): StarState
    requires forall k :: 0 <= k < |order| ==> order[k] in urls
  {
    if order == [] then st
    else
      var last := order[|order| - 1];
      StarStep(StarLoop(st, order[..|order| - 1], urls, query, putOk), last, urls[last], query, putOk)
  }

  /** Looking each link up on the spot gives the same state as looking them all up first. */
  lemma {:induction false} StarLoopLooks(st: StarState, order: seq<nat>, urls: map<nat, GoUrl>,
                                         query: (string, string) -> Result<int, string>, putOk: string -> bool)
    requires forall k :: 0 <= k < |order| ==> order[k] in urls
    ensures forall k :: 0 <= k < |order| ==> order[k] in Lookups(urls, query)
    ensures StarLoop(st, order, urls, query, putOk) == StarAll(st, order, Lookups(urls, query), putOk)
    decreases |order|
  {
    var looks := Lookups(urls, query);
    assert looks.Keys == urls.Keys;
    if order != [] {
      var n := |order| - 1;
      StarLoopLooks(st, order[..n], urls, query, putOk);
      StarAllStep(st, order, n, urls, query, putOk);
      assert order[..n + 1] == order;
    }
  }

  /** The last pass of the loop, peeled off. */
  lemma StarAllLast(st: StarState, order: seq<nat>, i: nat, looks: map<nat, Lookup>, putOk: string -> bool)
    requires i < |order| && forall j :: 0 <= j < |order| ==> order[j] in looks
    ensures StarAll(st, order[..i + 1], looks, putOk)
            == Step(StarAll(st, order[..i], looks, putOk), order[i], looks[order[i]].key, looks[order[i]].answer, putOk)
  {
    assert order[..i + 1][..i] == order[..i];
  }

  /** The loop over `order`, a listing of the links with a URL, given each link's lookup. */
  function StarAll(st: StarState, order: seq<nat>, looks: map<nat, Lookup>, putOk: string -> bool): StarState
    requires forall k :: 0 <= k < |order| ==> order[k] in looks
  {
    if order == [] then st
    else
      var last := order[|order| - 1];
      Step(StarAll(st, order[..|order| - 1], looks, putOk), last, looks[last].key, looks[last].answer, putOk)
  }

  /** Running the loop over two pieces is running it over the first, then the second. */
  lemma {:induction false} StarAllAppend(st: StarState, a: seq<nat>, b: seq<nat>, looks: map<nat, Lookup>, putOk: string -> bool)
    requires forall j :: 0 <= j < |a| ==> a[j] in looks
    requires forall j :: 0 <= j < |b| ==> b[j] in looks
    ensures forall j :: 0 <= j < |a + b| ==> (a + b)[j] in looks
    ensures StarAll(st, a + b, looks, putOk) == StarAll(StarAll(st, a, looks, putOk), b, looks, putOk)
    decreases |b|
  {
    if b == [] {
      assert a + b == a;
    } else {
      var n := |b| - 1;
      assert (a + b)[..|a + b| - 1] == a + b[..n];
      StarAllAppend(st, a, b[..n], looks, putOk);
    }
  }

  /** When every lookup fails, the cache is only read, never written. */
  lemma {:induction false} FailedLookupsKeepCache(st: StarState, order: seq<nat>, looks: map<nat, Lookup>, putOk: string -> bool)
    requires forall j :: 0 <= j < |order| ==> order[j] in looks
    requires forall j :: 0 <= j < |order| ==> looks[order[j]].answer.1.Some?
    ensures StarAll(st, order, looks, putOk).cache == st.cache
  {
    if order != [] {
      FailedLookupsKeepCache(st, order[..|order| - 1], looks, putOk);
    }
  }

  /** Only links the loop visits get a badge, and the badges of the others are kept. */
  lemma {:induction false} OnlyVisitedBadged(st: StarState, order: seq<nat>, looks: map<nat, Lookup>, putOk: string -> bool, id: nat)
    requires forall j :: 0 <= j < |order| ==> order[j] in looks
    requires forall j :: 0 <= j < |order| ==> order[j] != id
    ensures (id in StarAll(st, order, looks, putOk).badges) == (id in st.badges)
    ensures id in st.badges ==> StarAll(st, order, looks, putOk).badges[id] == st.badges[id]
  {
    if order != [] {
      OnlyVisitedBadged(st, order[..|order| - 1], looks, putOk, id);
      var last := order[|order| - 1];
      StepKeepsOthers(StarAll(st, order[..|order| - 1], looks, putOk), last, looks[last].key, looks[last].answer, putOk, id);
    }
  }

  /**
   * A link whose lookup succeeds with a count of at least 1 ends up showing
   * that count, whatever the other links do and whatever the cache holds.
   */
  lemma FetchedCountShown(st: StarState, order: seq<nat>, looks: map<nat, Lookup>, putOk: string -> bool, k: nat)
    requires forall j :: 0 <= j < |order| ==> order[j] in looks
    requires forall i, j :: 0 <= i < j < |order| ==> order[i] != order[j]
    requires k < |order|
    requires looks[order[k]].answer.1.None? && looks[order[k]].answer.0 >= 1
    ensures order[k] in StarAll(st, order, looks, putOk).badges
    ensures StarAll(st, order, looks, putOk).badges[order[k]] == looks[order[k]].answer.0
  {
    var id := order[k];
    var upTo, after := order[..k + 1], order[k + 1..];
    assert upTo[..k] == order[..k];
    StepShows(StarAll(st, order[..k], looks, putOk), id, looks[id].key, looks[id].answer, putOk);
    var shown := StarAll(st, upTo, looks, putOk);
    forall j | 0 <= j < |after| ensures after[j] in looks && after[j] != id {
      assert after[j] == order[k + 1 + j];
    }
    OnlyVisitedBadged(shown, after, looks, putOk, id);
    StarAllAppend(st, upTo, after, looks, putOk);
    assert upTo + after == order;
  }

  /** `order` lists every id of `ids` exactly once, as `range` over a map visits its keys. */
  predicate VisitsAll(order: seq<nat>, ids: set<nat>) {
    && |order| == |ids|
    && (forall i, j :: 0 <= i < j < |order| ==> order[i] != order[j])
    && (forall j :: 0 <= j < |order| ==> order[j] in ids)
    && (forall id :: id in ids ==> id in order)
  }

  /** `EveryLinkStarred` with each answer written as the lookup of its link. */
  lemma LinksStarred(st: StarState, order: seq<nat>, urls: map<nat, GoUrl>, query: (string, string) -> Result<int, string>,
                     putOk: string -> bool)
    requires VisitsAll(order, urls.Keys)
    ensures forall j :: 0 <= j < |order| ==> order[j] in Lookups(urls, query)
    ensures forall id :: id in urls && GetStarCountFor(urls[id], query).1.None? && GetStarCountFor(urls[id], query).0 >= 1 ==>
              id in StarAll(st, order, Lookups(urls, query), putOk).badges
              && StarAll(st, order, Lookups(urls, query), putOk).badges[id] == GetStarCountFor(urls[id], query).0
    ensures forall id :: id !in urls ==>
              (id in StarAll(st, order, Lookups(urls, query), putOk).badges <==> id in st.badges)
              && (id in st.badges ==> StarAll(st, order, Lookups(urls, query), putOk).badges[id] == st.badges[id])
  {
    var looks := Lookups(urls, query);
    assert looks.Keys == urls.Keys;
    EveryLinkStarred(st, order, looks, putOk);
    forall id | id in urls ensures looks[id].answer == GetStarCountFor(urls[id], query) {
      LookupsAgree(st, id, urls, query, putOk);
    }
  }

  /**
   * The whole star loop: every link with a URL whose lookup succeeds with a
   * count of at least 1 shows that count, and every link without a URL keeps
   * the badge it had (or its lack of one).
   */
  lemma EveryLinkStarred(st: StarState, order: seq<nat>, looks: map<nat, Lookup>, putOk: string -> bool)
    requires VisitsAll(order, looks.Keys)
    ensures forall j :: 0 <= j < |order| ==> order[j] in looks
    ensures forall id :: id in looks && looks[id].answer.1.None? && looks[id].answer.0 >= 1 ==>
              id in StarAll(st, order, looks, putOk).badges && StarAll(st, order, looks, putOk).badges[id] == looks[id].answer.0
    ensures forall id :: id !in looks ==>
              (id in StarAll(st, order, looks, putOk).badges <==> id in st.badges)
              && (id in st.badges ==> StarAll(st, order, looks, putOk).badges[id] == st.badges[id])
  {
    forall id | id in looks && looks[id].answer.1.None? && looks[id].answer.0 >= 1
      ensures id in StarAll(st, order, looks, putOk).badges && StarAll(st, order, looks, putOk).badges[id] == looks[id].answer.0
    {
      var k :| 0 <= k < |order| && order[k] == id;
      FetchedCountShown(st, order, looks, putOk, k);
    }
    forall id | id !in looks
      ensures id in StarAll(st, order, looks, putOk).badges <==> id in st.badges
      ensures id in st.badges ==> StarAll(st, order, looks, putOk).badges[id] == st.badges[id]
    {
      OnlyVisitedBadged(st, order, looks, putOk, id);
    }
  }

  /** The manager: its link processor, the star cache, and the badges put on links so far. */
  class Manager {
    const linkProcessor: LinkProcessor
    var cache: map<string, int>
    var badges: map<nat, int>

    constructor (cache: map<string, int>)
      ensures fresh(linkProcessor)
      ensures linkProcessor.links == {} && linkProcessor.linkUrlMap == map[]
      ensures this.cache == cache && badges == map[]
    {
      linkProcessor := new LinkProcessor();
      this.cache := cache;
      badges := map[];
    }

    /** `parseLinks`: save the node if it is a link, then walk its children in order. */
    method ParseLinks(node: Node, parseUrl: string -> Option<GoUrl>)
      modifies linkProcessor
      ensures linkProcessor.State() == SaveAll(old(linkProcessor.State()), LinksOf(node), parseUrl)
      decreases node
    {
      var start := linkProcessor.State();
      var own := if node.kind.Link? then [LinkRef(node.kind.id, node.kind.destination)] else [];
      if node.kind.Link? {
        linkProcessor.SaveLink(Some(LinkRef(node.kind.id, node.kind.destination)), parseUrl);
      }
      assert own + LinksOfAll(node.children[..0]) == own;
      var i := 0;
      while i < |node.children|
        invariant 0 <= i <= |node.children|
        invariant linkProcessor.State() == SaveAll(start, own + LinksOfAll(node.children[..i]), parseUrl)
      {
        ParseLinks(node.children[i], parseUrl);
        SaveChildStep(start, own, node.children, i, parseUrl);
        i := i + 1;
      }
      assert node.children[..i] == node.children;
    }

    function Stars(): StarState
      reads this
    {
      StarState(cache, badges)
    }

    /** One pass of the star loop: look the link's repository up, then show and cache its count. */
    method StarOne(id: nat, u: GoUrl, query: (string, string) -> Result<int, string>, putOk: string -> bool)
      modifies this
      ensures Stars() == StarStep(old(Stars()), id, u, query, putOk)
    {
      var r := GetStarCountFor(u, query);
      if r.1.Some? {
        if u.text in cache && cache[u.text] >= 1 {
          badges := badges[id := cache[u.text]];
        }
      } else {
        if r.0 >= 1 {
          badges := badges[id := r.0];
        }
        if putOk(u.text) {
          cache := cache[u.text := r.0];
        }
      }
    }

    /**
     * The star loop over every link with a URL, in the order `order` (Go
     * ranges over the map in an order of its own choosing, visiting each
     * entry once).
     */
    method StarLinks(order: seq<nat>, query: (string, string) -> Result<int, string>, putOk: string -> bool)
      requires VisitsAll(order, linkProcessor.linkUrlMap.Keys)
      modifies this
      ensures forall j :: 0 <= j < |order| ==> order[j] in Lookups(linkProcessor.linkUrlMap, query)
      ensures Stars() == StarAll(old(Stars()), order, Lookups(linkProcessor.linkUrlMap, query), putOk)
      ensures forall id :: id in linkProcessor.linkUrlMap && GetStarCountFor(linkProcessor.linkUrlMap[id], query).1.None?
                             && GetStarCountFor(linkProcessor.linkUrlMap[id], query).0 >= 1 ==>
                id in badges && badges[id] == GetStarCountFor(linkProcessor.linkUrlMap[id], query).0
      ensures forall id :: id !in linkProcessor.linkUrlMap ==>
                (id in badges <==> id in old(badges)) && (id in old(badges) ==> badges[id] == old(badges)[id])
    {
      var urls := linkProcessor.linkUrlMap;
      var i := 0;
      while i < |order|
        invariant 0 <= i <= |order|
        invariant Stars() == StarLoop(old(Stars()), order[..i], urls, query, putOk)
      {
        assert order[..i + 1][..i] == order[..i];
        StarOne(order[i], urls[order[i]], query, putOk);
        i := i + 1;
      }
      assert order[..i] == order;
      StarLoopLooks(old(Stars()), order, urls, query, putOk);
      LinksStarred(old(Stars()), order, urls, query, putOk);
    }

    /** The SHA sent with the README upload: that of the last `README.md` in the head commit. */
    method ReadmeSha(files: seq<GoGit.CommitFile>) returns (sha: Option<string>)
      ensures sha == GoGit.ShaOf(files, RepoReadmeFile)
      ensures GoGit.LastMatch(files, RepoReadmeFile).None? ==> sha.None?
      ensures GoGit.LastMatch(files, RepoReadmeFile).Some? ==> sha == files[GoGit.LastMatch(files, RepoReadmeFile).value].sha
    {
      sha := GoGit.LastSha(files, RepoReadmeFile);
    }
  }

  /** Every link of the tree is seen once `parseLinks` has walked it, and the maps still agree. */
  lemma ParsedLinksSeen(s: Seen, node: Node, parseUrl: string -> Option<GoUrl>)
    requires Tracked(s)
    ensures Tracked(SaveAll(s, LinksOf(node), parseUrl))
    ensures forall k :: 0 <= k < |LinksOf(node)| ==> LinksOf(node)[k].id in SaveAll(s, LinksOf(node), parseUrl).links
  {
    SaveAllTracked(s, LinksOf(node), parseUrl);
    SaveAllSeen(s, LinksOf(node), parseUrl);
  }

  /** `withAboutText`: the about text, then the rendered list. */
  function WithAboutText(b: string, aboutText: string): (r: string)
    ensures |r| == |aboutText| + |b|
    ensures r[..|aboutText|] == aboutText && r[|aboutText|..] == b
  {
    aboutText + b
  }
}
