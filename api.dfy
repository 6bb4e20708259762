/**
 * The request URL of the Hacker News search API, built by plain string
 * concatenation: no part of the search term is escaped or encoded.
 */
module Api {
  import opened Wrappers

  const PathBase: string := "https://hn.algolia.com/api/v1"
  const PathSearch: string := "/search"
  const ParamSearch: string := "query="

  /** Everything in front of the search term. */
  const SearchPrefix: string := PathBase + PathSearch + "?" + ParamSearch

  /** The URL requested for `searchTerm`: the fixed prefix, then the term as it is. */
  function SearchUrl(searchTerm: string): (url: string)
    ensures url == "https://hn.algolia.com/api/v1/search?query=" + searchTerm
    ensures SearchPrefix <= url && url[|SearchPrefix|..] == searchTerm
  {
    PathBase + PathSearch + "?" + ParamSearch + searchTerm
  }

  /** Reads the search term back out of a request URL, if it has the fixed prefix. */
  function QueryOf(url: string): (term: Option<string>)
    ensures term.Some? <==> SearchPrefix <= url
    ensures term.Some? ==> SearchUrl(term.value) == url
  {
    if SearchPrefix <= url then Some(url[|SearchPrefix|..]) else None
  }

  /** Every search term, whatever characters it holds, comes back unchanged. */
  lemma QueryOfSearchUrl(searchTerm: string)
    ensures QueryOf(SearchUrl(searchTerm)) == Some(searchTerm)
  {
  }

  /** Distinct search terms give distinct request URLs. */
  lemma SearchUrlInjective(a: string, b: string)
    ensures SearchUrl(a) == SearchUrl(b) ==> a == b
  {
    QueryOfSearchUrl(a);
    QueryOfSearchUrl(b);
  }
}
