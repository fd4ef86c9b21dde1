/**
 Line items behind page links: fetching all pages, searching page by page, and creating an item only
 when the search finds none.
 */
module LineItems {
  import opened Wrappers

  /** A line item as the platform's JSON object. */
  datatype Item = Item(fields: map<string, string>)

  /** One page request: it raises, its body is not a list, or it gives items and the next page's address. */
  datatype PageReply = RequestError | NotAList | Page(items: seq<Item>, next: Option<string>)

  /** The pages of a platform at one moment. The empty address stands for none. */
  type Pages = string -> PageReply

  datatype Error = MissingScope | ServiceError | UnknownResponse | ValueNotSpecified | InvalidFindBy

  function Address(next: Option<string>): string {
    match next case None => "" case Some(url) => url
  }

  /** The chain of pages from an address ends, or stops at a request that fails, within `n` requests. */
  ghost predicate EndsWithin(g: Pages, url: string, n: nat)
    decreases n
  {
    url == "" || (n > 0 && (g(url).Page? ==> EndsWithin(g, Address(g(url).next), n - 1)))
  }

  // ---- What the platform lists. ----

  /** All items along the chain, or the first error on it. */
  ghost function Listing(g: Pages, url: string, n: nat): Result<seq<Item>, Error>
    requires EndsWithin(g, url, n)
    decreases n
  {
    if url == "" then Ok([])
    else
      match g(url)
      case RequestError => Err(ServiceError)
      case NotAList => Err(UnknownResponse)
      case Page(items, next) =>
        Prepend(items, Listing(g, Address(next), n - 1))
  }

  function Prepend(items: seq<Item>, r: Result<seq<Item>, Error>): Result<seq<Item>, Error> {
    match r case Err(e) => Err(e) case Ok(rest) => Ok(items + rest)
  }

  /** The addresses along the chain, as far as it can be followed. */
  ghost function Chain(g: Pages, url: string, n: nat): seq<string>
    requires EndsWithin(g, url, n)
    decreases n
  {
    if url == "" then []
    else if g(url).Page? then [url] + Chain(g, Address(g(url).next), n - 1)
    else [url]
  }

  predicate Matches(item: Item, prop: string, value: string) {
    prop in item.fields && item.fields[prop] == value
  }

  function FirstMatch(items: seq<Item>, prop: string, value: string): Option<Item> {
    if items == [] then None
    else if Matches(items[0], prop, value) then Some(items[0])
    else FirstMatch(items[1..], prop, value)
  }

  function Count(items: seq<Item>, prop: string, value: string): nat {
    if items == [] then 0 else (if Matches(items[0], prop, value) then 1 else 0) + Count(items[1..], prop, value)
  }

  // ---- What a search along the pages comes to. ----

  /** The first match on the pages up to and including the one that holds it; an error only if it comes first. */
  ghost function Search(g: Pages, url: string, n: nat, prop: string, value: string): Result<Option<Item>, Error>
    requires EndsWithin(g, url, n)
    decreases n
  {
    if url == "" then Ok(None)
    else
      match g(url)
      case RequestError => Err(ServiceError)
      case NotAList => Err(UnknownResponse)
      case Page(items, next) =>
        var found := FirstMatch(items, prop, value);
        if found.Some? then Ok(found) else Search(g, Address(next), n - 1, prop, value)
  }

  /** The requests of a search: the chain, cut after the first page that holds a match. */
  ghost function SearchRequests(g: Pages, url: string, n: nat, prop: string, value: string): seq<string>
    requires EndsWithin(g, url, n)
    decreases n
  {
    if url == "" then []
    else if g(url).Page? && FirstMatch(g(url).items, prop, value).None? then
      [url] + SearchRequests(g, Address(g(url).next), n - 1, prop, value)
    else [url]
  }

  lemma {:induction false} FirstMatchAppend(a: seq<Item>, b: seq<Item>, prop: string, value: string)
    ensures FirstMatch(a + b, prop, value) ==
            if FirstMatch(a, prop, value).Some? then FirstMatch(a, prop, value) else FirstMatch(b, prop, value)
  {
    if a == [] {
      assert a + b == b;
    } else {
      FirstMatchAppend(a[1..], b, prop, value);
      assert (a + b)[1..] == a[1..] + b;
    }
  }

  /**
   Searching page by page refines searching the whole list: it gives the first match of the list, or none,
   whenever the list can be fetched; it requests a prefix of the pages; and it fails only if the list does.
   */
  lemma {:induction false} LazySearchRefinesEager(g: Pages, url: string, n: nat, prop: string, value: string)
    requires EndsWithin(g, url, n)
    ensures Listing(g, url, n).Ok? ==>
              Search(g, url, n, prop, value) == Ok(FirstMatch(Listing(g, url, n).value, prop, value))
    ensures Search(g, url, n, prop, value).Err? ==> Listing(g, url, n) == Err(Search(g, url, n, prop, value).error)
    ensures SearchRequests(g, url, n, prop, value) <= Chain(g, url, n)
    ensures Search(g, url, n, prop, value) == Ok(None) || Search(g, url, n, prop, value).Err? ==>
              SearchRequests(g, url, n, prop, value) == Chain(g, url, n)
    decreases n
  {
    if url != "" && g(url).Page? {
      var next := Address(g(url).next);
      LazySearchRefinesEager(g, next, n - 1, prop, value);
      if Listing(g, next, n - 1).Ok? {
        FirstMatchAppend(g(url).items, Listing(g, next, n - 1).value, prop, value);
      }
    }
  }

  /** A search that finds something makes its last request for a page that holds the match. */
  lemma {:induction false} NoRequestAfterMatch(g: Pages, url: string, n: nat, prop: string, value: string)
    requires EndsWithin(g, url, n)
    requires Search(g, url, n, prop, value).Ok? && Search(g, url, n, prop, value).value.Some?
    ensures var requests := SearchRequests(g, url, n, prop, value);
            && requests != []
            && (forall i :: 0 <= i < |requests| ==> g(requests[i]).Page?)
            && (forall i :: 0 <= i < |requests| - 1 ==> FirstMatch(g(requests[i]).items, prop, value).None?)
            && FirstMatch(g(requests[|requests| - 1]).items, prop, value) == Search(g, url, n, prop, value).value
    decreases n
  {
    if FirstMatch(g(url).items, prop, value).None? {
      NoRequestAfterMatch(g, Address(g(url).next), n - 1, prop, value);
    }
  }

  /**
   The bound does not matter: any two bounds within which a chain ends describe the same listing, searches and requests.
   */
  lemma {:induction false} BoundDoesNotMatter(g: Pages, url: string, n: nat, k: nat, prop: string, value: string)
    requires EndsWithin(g, url, n) && EndsWithin(g, url, k)
    ensures Listing(g, url, n) == Listing(g, url, k) && Chain(g, url, n) == Chain(g, url, k)
    ensures Search(g, url, n, prop, value) == Search(g, url, k, prop, value)
    ensures SearchRequests(g, url, n, prop, value) == SearchRequests(g, url, k, prop, value)
    decreases n
  {
    if url != "" && g(url).Page? {
      BoundDoesNotMatter(g, Address(g(url).next), n - 1, k - 1, prop, value);
    }
  }

  /** The pages at these addresses are linked, each to the next, and the last names no other page. */
  ghost predicate Linked(g: Pages, urls: seq<string>) {
    && (forall i :: 0 <= i < |urls| ==> urls[i] != "" && g(urls[i]).Page?)
    && (forall i :: 0 <= i < |urls| - 1 ==> g(urls[i]).next == Some(urls[i + 1]))
    && (urls != [] ==> g(urls[|urls| - 1]).next == None || g(urls[|urls| - 1]).next == Some(""))
  }

  /** The items of these pages, one page after the other. */
  ghost function ItemsOf(g: Pages, urls: seq<string>): seq<Item>
    requires forall i :: 0 <= i < |urls| ==> g(urls[i]).Page?
  {
    if urls == [] then [] else g(urls[0]).items + ItemsOf(g, urls[1..])
  }

  /** Following the links from the first of some linked pages visits exactly these and lists exactly their items. */
  lemma {:induction false} LinkedPagesAreListed(g: Pages, urls: seq<string>)
    requires Linked(g, urls)
    ensures var url := if urls == [] then "" else urls[0];
            && EndsWithin(g, url, |urls|)
            && Listing(g, url, |urls|) == Ok(ItemsOf(g, urls)) && Chain(g, url, |urls|) == urls
  {
    if urls != [] {
      var rest := urls[1..];
      assert forall i :: 0 <= i < |rest| ==> rest[i] == urls[i + 1];
      LinkedPagesAreListed(g, rest);
      assert urls == [urls[0]] + rest;
      if rest != [] { assert g(urls[0]).next == Some(rest[0]); }
    }
  }

  /** A page that cannot be fetched, or is no list, makes the listing fail, whatever pages came before. */
  lemma {:induction false} BrokenPagesFail(g: Pages, urls: seq<string>, n: nat)
    requires urls != [] && (forall i :: 0 <= i < |urls| ==> urls[i] != "")
    requires forall i :: 0 <= i < |urls| - 1 ==> g(urls[i]).Page? && g(urls[i]).next == Some(urls[i + 1])
    requires !g(urls[|urls| - 1]).Page? && EndsWithin(g, urls[0], n)
    ensures Listing(g, urls[0], n) == Err(if g(urls[|urls| - 1]).RequestError? then ServiceError else UnknownResponse)
  {
    if |urls| > 1 {
      assert g(urls[0]).next == Some(urls[1]);
      BrokenPagesFail(g, urls[1..], n - 1);
    }
  }

  // ---- The service. ----

  const SCOPE_READONLY := "https://purl.imsglobal.org/spec/lti-ags/scope/lineitem.readonly"
  const SCOPE_LINEITEM := "https://purl.imsglobal.org/spec/lti-ags/scope/lineitem"

  /** The answer to a posted item. */
  datatype PostReply = PostError | NotADict | Created(item: Item)

  predicate CanRead(scopes: seq<string>) { SCOPE_READONLY in scopes || SCOPE_LINEITEM in scopes }

  predicate CanCreate(scopes: seq<string>) { SCOPE_LINEITEM in scopes }

  /** The property a `find_by` argument selects. */
  function PropertyOf(findBy: string): Option<string> {
    if findBy == "tag" then Some("tag")
    else if findBy == "id" then Some("id")
    else if findBy == "resource_link_id" then Some("resourceLinkId")
    else if findBy == "resource_id" then Some("resourceId")
    else None
  }

  /** Following `rest` after the requests made so far is following `all` after those made before. */
  ghost predicate Followed(before: seq<string>, now: seq<string>, rest: seq<string>, all: seq<string>) {
    now + rest == before + all
  }

  /** The items found so far and the listing of the rest make up the whole listing. */
  ghost predicate Collected(found: seq<Item>, rest: Result<seq<Item>, Error>, all: Result<seq<Item>, Error>) {
    all == Prepend(found, rest)
  }

  lemma CollectedFacts(found: seq<Item>, items: seq<Item>, rest: Result<seq<Item>, Error>,
      all: Result<seq<Item>, Error>)
    ensures Collected([], all, all)
    ensures Collected(found, Prepend(items, rest), all) ==> Collected(found + items, rest, all)
    ensures Collected(found, Ok([]), all) ==> all == Ok(found)
  {
    if all.Ok? { assert [] + all.value == all.value; }
    if rest.Ok? { assert found + (items + rest.value) == (found + items) + rest.value; }
    assert found + [] == found;
  }

  class AssignmentsGradesService {
    const scopes: seq<string>
    const lineitems: string
    var requests: seq<string>
    var posts: seq<Item>

    constructor (scopes: seq<string>, lineitems: string)
      ensures this.scopes == scopes && this.lineitems == lineitems && requests == [] && posts == []
    {
      this.scopes, this.lineitems, requests, posts := scopes, lineitems, [], [];
    }

    method GetLineitemsPage(g: Pages, url: string) returns (r: Result<(seq<Item>, string), Error>)
      modifies this`requests
      ensures !CanRead(scopes) ==> r == Err(MissingScope) && requests == old(requests)
      ensures CanRead(scopes) ==>
                var address := if url == "" then lineitems else url;
                && requests == old(requests) + [address]
                && r == match g(address)
                        case RequestError => Err(ServiceError)
                        case NotAList => Err(UnknownResponse)
                        case Page(items, next) => Ok((items, Address(next)))
    {
      if !CanRead(scopes) { return Err(MissingScope); }
      var address := if url == "" then lineitems else url;
      requests := requests + [address];
      match g(address)
      case RequestError => return Err(ServiceError);
      case NotAList => return Err(UnknownResponse);
      case Page(items, next) => return Ok((items, Address(next)));
    }

    method GetLineitems(g: Pages, ghost n: nat) returns (r: Result<seq<Item>, Error>)
      requires EndsWithin(g, lineitems, n)
      modifies this`requests
      ensures CanRead(scopes) ==> r == Listing(g, lineitems, n) && requests == old(requests) + Chain(g, lineitems, n)
      ensures !CanRead(scopes) ==> requests == old(requests)
      ensures !CanRead(scopes) ==> r == if lineitems == "" then Ok([]) else Err(MissingScope)
    {
      var found, url := [], lineitems;
      ghost var left := n;
      CollectedFacts([], [], Ok([]), Listing(g, lineitems, n));
      while url != ""
        invariant EndsWithin(g, url, left)
        invariant !CanRead(scopes) ==> url == lineitems && found == [] && requests == old(requests)
        invariant CanRead(scopes) ==> Followed(old(requests), requests, Chain(g, url, left), Chain(g, lineitems, n))
        invariant CanRead(scopes) ==> Collected(found, Listing(g, url, left), Listing(g, lineitems, n))
        decreases left
      {
        var page := GetLineitemsPage(g, url);
        if page.Err? { return Err(page.error); }
        CollectedFacts(found, page.value.0, Listing(g, page.value.1, left - 1), Listing(g, lineitems, n));
        found, url := found + page.value.0, page.value.1;
        left := left - 1;
      }
      CollectedFacts(found, [], Ok([]), Listing(g, lineitems, n));
      return Ok(found);
    }

    method FindLineitem(g: Pages, prop: string, value: string, ghost n: nat) returns (r: Result<Option<Item>, Error>)
      requires EndsWithin(g, lineitems, n)
      modifies this`requests
      ensures CanRead(scopes) ==>
                && r == Search(g, lineitems, n, prop, value)
                && requests == old(requests) + SearchRequests(g, lineitems, n, prop, value)
      ensures !CanRead(scopes) ==> requests == old(requests)
      ensures !CanRead(scopes) ==> r == if lineitems == "" then Ok(None) else Err(MissingScope)
    {
      var url := lineitems;
      ghost var left := n;
      while url != ""
        invariant EndsWithin(g, url, left)
        invariant !CanRead(scopes) ==> url == lineitems && requests == old(requests)
        invariant CanRead(scopes) ==>
                    && Search(g, lineitems, n, prop, value) == Search(g, url, left, prop, value)
                    && Followed(old(requests), requests, SearchRequests(g, url, left, prop, value),
                         SearchRequests(g, lineitems, n, prop, value))
        decreases left
      {
        var page := GetLineitemsPage(g, url);
        if page.Err? { return Err(page.error); }
        var items := page.value.0;
        for i := 0 to |items|
          invariant FirstMatch(items, prop, value) == FirstMatch(items[i..], prop, value)
        {
          assert items[i..][0] == items[i] && items[i..][1..] == items[i + 1..];
          if Matches(items[i], prop, value) { return Ok(Some(items[i])); }
        }
        url := page.value.1;
        left := left - 1;
      }
      return Ok(None);
    }

    method FindOrCreateLineitem(g: Pages, newItem: Item, findBy: string, reply: PostReply, ghost n: nat)
      returns (r: Result<Item, Error>)
      requires EndsWithin(g, lineitems, n)
      modifies this
      ensures r == FindOrCreate(scopes, lineitems, g, newItem, findBy, reply, n).0
      ensures posts == old(posts) + FindOrCreate(scopes, lineitems, g, newItem, findBy, reply, n).1
    {
      var prop := PropertyOf(findBy);
      if prop.None? { return Err(InvalidFindBy); }
      if prop.value !in newItem.fields || newItem.fields[prop.value] == "" { return Err(ValueNotSpecified); }
      var found := FindLineitem(g, prop.value, newItem.fields[prop.value], n);
      if found.Err? { return Err(found.error); }
      if found.value.Some? { return Ok(found.value.value); }
      if !CanCreate(scopes) { return Err(MissingScope); }
      posts := posts + [newItem];
      match reply
      case PostError => return Err(ServiceError);
      case NotADict => return Err(UnknownResponse);
      case Created(item) => return Ok(item);
    }
  }

  /** What a find-or-create call answers, and which items it posts. */
  ghost function FindOrCreate(scopes: seq<string>, base: string, g: Pages, newItem: Item, findBy: string,
      reply: PostReply, n: nat)
    : (Result<Item, Error>, seq<Item>)
    requires EndsWithin(g, base, n)
  {
    var prop := PropertyOf(findBy);
    if prop.None? then (Err(InvalidFindBy), [])
    else if prop.value !in newItem.fields || newItem.fields[prop.value] == "" then (Err(ValueNotSpecified), [])
    else
      var found := if CanRead(scopes) then Search(g, base, n, prop.value, newItem.fields[prop.value])
                   else if base == "" then Ok(None) else Err(MissingScope);
      if found.Err? then (Err(found.error), [])
      else if found.value.Some? then (Ok(found.value.value), [])
      else if !CanCreate(scopes) then (Err(MissingScope), [])
      else
        (match reply {
         case PostError => Err(ServiceError)
         case NotADict => Err(UnknownResponse)
         case Created(item) => Ok(item)
         }, [newItem])
  }

  // ---- A platform that keeps what is posted. ----

  /** A platform at one moment: its pages, with a bound within which their chain ends. */
  datatype Platform = Platform(pages: Pages, bound: nat)

  ghost predicate Lists(base: string, p: Platform, items: seq<Item>) {
    EndsWithin(p.pages, base, p.bound) && Listing(p.pages, base, p.bound) == Ok(items)
  }

  /** One call, the platform's answer to a post, and the platform and its items afterwards. */
  datatype Step = Step(newItem: Item, findBy: string, reply: PostReply, after: Platform, items: seq<Item>)

  /**
   The platform stores an accepted item with the posted properties, stores nothing on an error, and has no other writer.
   */
  ghost predicate Keeps(items: seq<Item>, posted: seq<Item>, reply: PostReply, after: seq<Item>) {
    if posted == [] || reply.PostError? then multiset(after) == multiset(items)
    else exists stored: Item ::
      && (forall k :: k in posted[0].fields && k != "id" ==>
           k in stored.fields && stored.fields[k] == posted[0].fields[k])
      && multiset(after) == multiset(items) + multiset{stored}
      && (reply.Created? ==> reply.item == stored)
  }

  /** A run of calls against a platform that starts with `items` at `p` and lists everything it keeps. */
  ghost predicate Run(scopes: seq<string>, base: string, p: Platform, items: seq<Item>, steps: seq<Step>)
    decreases |steps|
  {
    if steps == [] then Lists(base, p, items)
    else OneCall(scopes, base, p, items, steps[0]) && Run(scopes, base, steps[0].after, steps[0].items, steps[1..])
  }

  /** One call against a platform that lists `items`, which keeps whatever the call posts. */
  ghost predicate OneCall(scopes: seq<string>, base: string, p: Platform, items: seq<Item>, s: Step) {
    Lists(base, p, items)
      && Keeps(items, FindOrCreate(scopes, base, p.pages, s.newItem, s.findBy, s.reply, p.bound).1, s.reply, s.items)
  }

  function Last(items: seq<Item>, steps: seq<Step>): seq<Item> {
    if steps == [] then items else steps[|steps| - 1].items
  }

  lemma {:induction false} CountIsMultiset(items: seq<Item>, prop: string, value: string)
    ensures FirstMatch(items, prop, value).None? <==> Count(items, prop, value) == 0
    ensures FirstMatch(items, prop, value).Some? ==>
              FirstMatch(items, prop, value).value in items
                && Matches(FirstMatch(items, prop, value).value, prop, value)
  {
    if items != [] { CountIsMultiset(items[1..], prop, value); }
  }

  lemma {:induction false} CountRemove(items: seq<Item>, i: nat, prop: string, value: string)
    requires i < |items|
    ensures Count(items, prop, value) == Count(items[..i] + items[i + 1..], prop, value)
              + (if Matches(items[i], prop, value) then 1 else 0)
  {
    if i == 0 {
      assert items[..0] + items[1..] == items[1..];
    } else {
      CountRemove(items[1..], i - 1, prop, value);
      assert (items[..i] + items[i + 1..])[1..] == items[1..][..i - 1] + items[1..][i..];
    }
  }

  lemma RemoveSame<T>(a: seq<T>, b: seq<T>, i: nat)
    requires a != [] && i < |b| && b[i] == a[0] && multiset(a) == multiset(b)
    ensures multiset(a[1..]) == multiset(b[..i] + b[i + 1..])
  {
    assert a == [a[0]] + a[1..] && b == b[..i] + [b[i]] + b[i + 1..];
    assert multiset(a[1..]) == multiset(a) - multiset{a[0]};
    assert multiset(b[..i] + b[i + 1..]) == multiset(b) - multiset{b[i]};
  }

  /** Counts depend on what is listed, not on the order. */
  lemma {:induction false} CountIgnoresOrder(a: seq<Item>, b: seq<Item>, prop: string, value: string)
    requires multiset(a) == multiset(b)
    ensures Count(a, prop, value) == Count(b, prop, value)
  {
    if a == [] {
      assert |b| == |multiset(b)| == 0;
    } else {
      assert a[0] in multiset(b);
      var i :| 0 <= i < |b| && b[i] == a[0];
      CountRemove(b, i, prop, value);
      RemoveSame(a, b, i);
      CountIgnoresOrder(a[1..], b[..i] + b[i + 1..], prop, value);
    }
  }

  function Max(a: nat, b: nat): nat { if a < b then b else a }

  /** A call by tag posts exactly when nothing listed has the tag, and otherwise answers with a listed item. */
  lemma CallByTag(scopes: seq<string>, base: string, p: Platform, items: seq<Item>, newItem: Item, reply: PostReply)
    requires Lists(base, p, items) && CanRead(scopes)
    ensures var call := FindOrCreate(scopes, base, p.pages, newItem, "tag", reply, p.bound);
            if "tag" !in newItem.fields || newItem.fields["tag"] == "" then call == (Err(ValueNotSpecified), [])
            else
              var count := Count(items, "tag", newItem.fields["tag"]);
              && (count > 0 ==>
                    && call.1 == [] && call.0.Ok? && call.0.value in items
                    && Matches(call.0.value, "tag", newItem.fields["tag"]))
              && (count == 0 ==> if CanCreate(scopes) then call.1 == [newItem] else call == (Err(MissingScope), []))
  {
    if "tag" in newItem.fields {
      LazySearchRefinesEager(p.pages, base, p.bound, "tag", newItem.fields["tag"]);
      CountIsMultiset(items, "tag", newItem.fields["tag"]);
    }
  }

  /** The `find_by` argument selects this property. */
  ghost predicate Selects(findBy: string, prop: string) {
    || (findBy == "tag" && prop == "tag")
    || (findBy == "id" && prop == "id")
    || (findBy == "resource_link_id" && prop == "resourceLinkId")
    || (findBy == "resource_id" && prop == "resourceId")
  }

  /** The item at `i` is the first of the list to have this value of the property. */
  ghost predicate FirstWith(items: seq<Item>, i: nat, prop: string, value: string) {
    && i < |items| && prop in items[i].fields && items[i].fields[prop] == value
    && forall j :: 0 <= j < i ==> !(prop in items[j].fields && items[j].fields[prop] == value)
  }

  ghost predicate NoneWith(items: seq<Item>, prop: string, value: string) {
    forall j :: 0 <= j < |items| ==> !(prop in items[j].fields && items[j].fields[prop] == value)
  }

  lemma {:induction false} FirstMatchIsFirst(items: seq<Item>, prop: string, value: string)
    ensures FirstMatch(items, prop, value) == None <==> NoneWith(items, prop, value)
    ensures forall i: nat :: FirstWith(items, i, prop, value) ==> FirstMatch(items, prop, value) == Some(items[i])
  {
    if items != [] {
      var rest := items[1..];
      FirstMatchIsFirst(rest, prop, value);
      assert forall j :: 0 < j < |items| ==> items[j] == rest[j - 1];
      assert forall j :: 0 <= j < |rest| ==> rest[j] == items[j + 1];
      forall i: nat | FirstWith(items, i, prop, value) && i > 0 ensures FirstWith(rest, i - 1, prop, value) {}
    }
  }

  /** What allows reading line items, and what allows creating them. */
  lemma ScopesAllow(scopes: seq<string>)
    ensures CanCreate(scopes) <==> "https://purl.imsglobal.org/spec/lti-ags/scope/lineitem" in scopes
    ensures CanRead(scopes) <==>
              CanCreate(scopes) || "https://purl.imsglobal.org/spec/lti-ags/scope/lineitem.readonly" in scopes
  {
  }

  /**
   A call by any selector: the first listed item with the new item's value of the selected property; without one,
   the new item is posted if the scopes allow it, and the answer is the platform's, its item or its error.
   */
  lemma CallFindsOrCreates(scopes: seq<string>, base: string, p: Platform, items: seq<Item>, newItem: Item,
      findBy: string,
      prop: string, reply: PostReply)
    requires Lists(base, p, items) && Selects(findBy, prop)
    requires CanRead(scopes) && prop in newItem.fields && newItem.fields[prop] != ""
    ensures var call := FindOrCreate(scopes, base, p.pages, newItem, findBy, reply, p.bound);
            && (forall i: nat :: FirstWith(items, i, prop, newItem.fields[prop]) ==> call == (Ok(items[i]), []))
            && (NoneWith(items, prop, newItem.fields[prop]) ==>
                  && (!CanCreate(scopes) ==> call == (Err(MissingScope), []))
                  && (CanCreate(scopes) ==>
                        && call.1 == [newItem]
                        && (reply.Created? ==> call.0 == Ok(reply.item))
                        && (reply.NotADict? ==> call.0 == Err(UnknownResponse))
                        && (reply.PostError? ==> call.0 == Err(ServiceError))))
  {
    LazySearchRefinesEager(p.pages, base, p.bound, prop, newItem.fields[prop]);
    FirstMatchIsFirst(items, prop, newItem.fields[prop]);
  }

  /** A call by no known selector, for an item without a value to find it by, or without the scopes, does nothing. */
  lemma CallNeedsSelectorAndValue(scopes: seq<string>, base: string, g: Pages, newItem: Item, findBy: string,
      prop: string,
      reply: PostReply, n: nat)
    requires EndsWithin(g, base, n)
    ensures findBy !in {"tag", "id", "resource_link_id", "resource_id"} ==>
              FindOrCreate(scopes, base, g, newItem, findBy, reply, n) == (Err(InvalidFindBy), [])
    ensures Selects(findBy, prop) && (prop !in newItem.fields || newItem.fields[prop] == "") ==>
              FindOrCreate(scopes, base, g, newItem, findBy, reply, n) == (Err(ValueNotSpecified), [])
    ensures Selects(findBy, prop) && prop in newItem.fields && newItem.fields[prop] != "" && !CanRead(scopes) ==>
              FindOrCreate(scopes, base, g, newItem, findBy, reply, n) == (Err(MissingScope), [])
  {
  }

  /** In any run, by whatever selector, the item that a successful call answers with is listed afterwards. */
  lemma AnswersAreListed(scopes: seq<string>, base: string, p: Platform, items: seq<Item>, s: Step, item: Item)
    requires OneCall(scopes, base, p, items, s)
    requires FindOrCreate(scopes, base, p.pages, s.newItem, s.findBy, s.reply, p.bound).0 == Ok(item)
    ensures item in s.items
  {
    var prop := PropertyOf(s.findBy).value;
    var value := s.newItem.fields[prop];
    if CanRead(scopes) {
      LazySearchRefinesEager(p.pages, base, p.bound, prop, value);
      CountIsMultiset(items, prop, value);
    }
    if item in items { assert item in multiset(items); }
    assert item in multiset(s.items);
  }

  /** What the platform keeps adds the posted item's tag to the counts, or nothing. */
  lemma KeepsCounts(items: seq<Item>, posted: seq<Item>, reply: PostReply, after: seq<Item>, tag: string)
    requires Keeps(items, posted, reply, after)
    requires posted != [] ==> "tag" in posted[0].fields
    ensures Count(after, "tag", tag) ==
            Count(items, "tag", tag)
            + (if posted != [] && !reply.PostError? && posted[0].fields["tag"] == tag then 1 else 0)
  {
    if posted == [] || reply.PostError? {
      CountIgnoresOrder(items, after, "tag", tag);
    } else {
      var stored: Item :| (forall k :: k in posted[0].fields && k != "id" ==>
          k in stored.fields && stored.fields[k] == posted[0].fields[k])
                          && multiset(after) == multiset(items) + multiset{stored};
      CountIgnoresOrder(after, [stored] + items, "tag", tag);
      assert ([stored] + items)[1..] == items;
    }
  }

  /** One call by tag leaves a tag's count as it was, or raises it from none to one. */
  lemma OneCallCountsTags(scopes: seq<string>, base: string, p: Platform, items: seq<Item>, s: Step, tag: string)
    requires OneCall(scopes, base, p, items, s) && s.findBy == "tag"
    ensures Count(items, "tag", tag) <= Count(s.items, "tag", tag) <= Max(Count(items, "tag", tag), 1)
  {
    if CanRead(scopes) { CallByTag(scopes, base, p, items, s.newItem, s.reply); }
    KeepsCounts(items, FindOrCreate(scopes, base, p.pages, s.newItem, s.findBy, s.reply, p.bound).1, s.reply, s.items,
      tag);
  }

  /** Over any run of calls by tag, no tag ends with more items than it had, or one. */
  lemma {:induction false} TagsAreCreatedOnce(scopes: seq<string>, base: string, p: Platform, items: seq<Item>,
      steps: seq<Step>, tag: string)
    requires Run(scopes, base, p, items, steps)
    requires forall s :: s in steps ==> s.findBy == "tag"
    ensures Count(items, "tag", tag) <= Count(Last(items, steps), "tag", tag) <= Max(Count(items, "tag", tag), 1)
    decreases |steps|
  {
    if steps != [] {
      OneCallCountsTags(scopes, base, p, items, steps[0], tag);
      TagsAreCreatedOnce(scopes, base, steps[0].after, steps[0].items, steps[1..], tag);
    }
  }

  /** The platform as the last call of a run leaves it. */
  function LastPlatform(p: Platform, steps: seq<Step>): Platform {
    if steps == [] then p else steps[|steps| - 1].after
  }

  /** Once a tag is listed, a call for it after any further run posts nothing and answers an item with that tag. */
  lemma {:induction false} RepeatPostsNothing(scopes: seq<string>, base: string, p: Platform, items: seq<Item>,
      steps: seq<Step>,
                                              newItem: Item, reply: PostReply)
    requires Run(scopes, base, p, items, steps) && CanRead(scopes)
    requires forall s :: s in steps ==> s.findBy == "tag"
    requires "tag" in newItem.fields && newItem.fields["tag"] != "" && Count(items, "tag", newItem.fields["tag"]) > 0
    ensures var q := LastPlatform(p, steps);
            EndsWithin(q.pages, base, q.bound) &&
            var call := FindOrCreate(scopes, base, q.pages, newItem, "tag", reply, q.bound);
            call.1 == [] && call.0.Ok? && Matches(call.0.value, "tag", newItem.fields["tag"])
    decreases |steps|
  {
    if steps != [] {
      OneCallCountsTags(scopes, base, p, items, steps[0], newItem.fields["tag"]);
      RepeatPostsNothing(scopes, base, steps[0].after, steps[0].items, steps[1..], newItem, reply);
    } else {
      CallByTag(scopes, base, p, items, newItem, reply);
    }
  }

  /** A call that creates an item leaves its tag listed, so the two results above apply from then on. */
  lemma SuccessListsTag(scopes: seq<string>, base: string, p: Platform, items: seq<Item>, s: Step)
    requires OneCall(scopes, base, p, items, s) && s.findBy == "tag" && CanRead(scopes)
    requires FindOrCreate(scopes, base, p.pages, s.newItem, "tag", s.reply, p.bound).0.Ok?
    ensures "tag" in s.newItem.fields && Count(s.items, "tag", s.newItem.fields["tag"]) > 0
  {
    CallByTag(scopes, base, p, items, s.newItem, s.reply);
    KeepsCounts(items, FindOrCreate(scopes, base, p.pages, s.newItem, "tag", s.reply, p.bound).1, s.reply, s.items,
      s.newItem.fields["tag"]);
  }
}
