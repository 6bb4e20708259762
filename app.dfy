/**
 * The `App` component: its state (`result`, `searchTerm`), its event
 * handlers, the fetch it issues and the promise callbacks that settle it,
 * and the loading/table choice made when it renders.
 */
module HackerNewsApp {
  import opened Wrappers
  import opened Stories
  import opened Api

  /** The search term the component starts with and fetches on mount. */
  const DefaultQuery: string := "redux"

  /** How a request handed to the HTTP client settles: with the response
      body, or with an error that is only logged. */
  datatype FetchOutcome = Fetched(data: SearchResult) | FetchFailed(error: string)

  /** What the component shows below the search form. */
  datatype Screen = Loading | Table(list: seq<Hit>)

  /** The `result ? <Table list={result.hits}/> : <h4>Loading...</h4>` choice. */
  function Render(result: Option<SearchResult>): (screen: Screen)
    ensures screen == Loading <==> result == None
    ensures screen.Table? ==> result.Some? && screen.list == result.value.hits
  {
    match result
    case None => Loading
    case Some(r) => Table(r.hits)
  }

  class App {
    /** The last response body stored, or `None` (the source's `null`) before any. */
    var result: Option<SearchResult>
    /** The text in the search input. */
    var searchTerm: string
    /** The URLs handed to the HTTP client so far, oldest first; this stands
        for the `axios.get` calls, which the component does not record. */
    ghost var requests: seq<string>
    /** The positions in `requests` of the requests that have not settled yet.
        A request settles at most once, through its own callbacks; with no
        timeout on the call, it may also stay pending forever. */
    ghost var pending: set<nat>

    /** Only requests that were issued can be outstanding. */
    ghost predicate Valid()
      reads this
    {
      forall k :: k in pending ==> k < |requests|
    }

    constructor ()
      ensures Valid()
      ensures result == None && searchTerm == DefaultQuery
      ensures requests == [] && pending == {}
    {
      result := None;
      searchTerm := DefaultQuery;
      requests := [];
      pending := {};
    }

    /** Stores a response body, replacing whatever was stored before. */
    method SetSearchTopStories(data: SearchResult)
      modifies this`result
      ensures result == Some(data)
    {
      result := Some(data);
    }

    /** Issues one request for `term`; the state is left alone until it settles. */
    method FetchSearchTopStories(term: string)
      requires Valid()
      modifies this`requests, this`pending
      ensures Valid()
      ensures requests == old(requests) + [SearchUrl(term)]
      ensures pending == old(pending) + {|old(requests)|}
    {
      ghost var url := SearchUrl(term);
      pending := pending + {|requests|};
      requests := requests + [url];
    }

    /** The `.then` / `.catch` callbacks of the outstanding request at
        position `k`, run when it settles: a response is stored, a failure
        changes nothing but the request's own completion. */
    method SettleFetch(k: nat, outcome: FetchOutcome)
      requires Valid() && k in pending
      modifies this`result, this`pending
      ensures Valid()
      ensures pending == old(pending) - {k}
      ensures outcome.Fetched? ==> result == Some(outcome.data)
      ensures outcome.FetchFailed? ==> result == old(result)
    {
      pending := pending - {k};
      match outcome
      case Fetched(data) =>
        SetSearchTopStories(data);
      case FetchFailed(_) =>
    }

    /** On mount the component fetches its current (initially default) term. */
    method ComponentDidMount()
      requires Valid()
      modifies this`requests, this`pending
      ensures Valid()
      ensures requests == old(requests) + [SearchUrl(searchTerm)]
      ensures pending == old(pending) + {|old(requests)|}
    {
      FetchSearchTopStories(searchTerm);
    }

    /** Drops every hit with this id from the stored result and keeps every
        other property of the result. The stored result must exist: the
        handler is reached only from a row of the table, which is rendered
        only once a result is stored. */
    method OnDismiss(id: string)
      requires result.Some?
      modifies this`result
      ensures result.Some?
      ensures result.value.hits == Without(old(result.value.hits), id)
      ensures result.value.rest == old(result.value.rest)
    {
      var updatedHits := Without(result.value.hits, id);
      result := Some(result.value.(hits := updatedHits));
    }

    /** Copies the input's new text into `searchTerm`. */
    method OnSearchChange(value: string)
      modifies this`searchTerm
      ensures searchTerm == value
    {
      searchTerm := value;
    }

    /** Fetches the current term, on every submit, whatever was fetched before. */
    method OnSearchSubmit()
      requires Valid()
      modifies this`requests, this`pending
      ensures Valid()
      ensures requests == old(requests) + [SearchUrl(searchTerm)]
      ensures pending == old(pending) + {|old(requests)|}
    {
      FetchSearchTopStories(searchTerm);
    }
  }

  /** Mounting and then submitting the unchanged default term twice issues
      three identical requests, all outstanding, and the screen keeps
      loading until one of them settles. */
  method RepeatedSubmit() returns (ghost sent: seq<string>, ghost outstanding: set<nat>, screen: Screen)
    ensures sent == [SearchUrl("redux"), SearchUrl("redux"), SearchUrl("redux")]
    ensures outstanding == {0, 1, 2}
    ensures screen == Loading
  {
    var app := new App();
    app.ComponentDidMount();
    app.OnSearchSubmit();
    app.OnSearchSubmit();
    sent, outstanding := app.requests, app.pending;
    screen := Render(app.result);
  }

  /** After the mount request's response is stored, dismissing an id (once
      or twice) shows the remaining hits, and a later submitted request that
      fails does not disturb them. */
  method DismissAfterLoad(data: SearchResult, id: string, error: string)
    returns (ghost sent: seq<string>, screen: Screen, rest: map<string, string>)
    ensures sent == [SearchUrl(DefaultQuery), SearchUrl(DefaultQuery)]
    ensures screen == Table(Without(data.hits, id))
    ensures rest == data.rest
  {
    var app := new App();
    app.ComponentDidMount();
    app.SettleFetch(0, Fetched(data));
    app.OnDismiss(id);
    app.OnDismiss(id);
    WithoutIdempotent(data.hits, id);
    app.OnSearchSubmit();
    app.SettleFetch(1, FetchFailed(error));
    sent := app.requests;
    screen, rest := Render(app.result), app.result.value.rest;
  }

  /** Requests settle in whatever order the network delivers them, and each
      success overwrites `result`: when request 0, the mount request for the
      default term, settles after request 1, the request for a new term, the
      table shows the default term's hits while the input holds the new term. */
  method StaleResponseWins(term: string, current: SearchResult, stale: SearchResult)
    returns (ghost sent: seq<string>, shownTerm: string, screen: Screen)
    ensures sent == [SearchUrl(DefaultQuery), SearchUrl(term)]
    ensures shownTerm == term
    ensures screen == Table(stale.hits)
  {
    var app := new App();
    app.ComponentDidMount();
    app.OnSearchChange(term);
    app.OnSearchSubmit();
    app.SettleFetch(1, Fetched(current));
    app.SettleFetch(0, Fetched(stale));
    sent := app.requests;
    shownTerm, screen := app.searchTerm, Render(app.result);
  }
}
