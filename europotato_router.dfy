/**
 * URL dispatch of the europotato.org crawler: variety index pages go to the index
 * handler, variety detail pages to the view handler, by case-sensitive URL
 * prefix; any other URL is refused with NotImplementedError.
 */
module EuropotatoRouter {
  import opened Wrappers
  import Text

  const IndexPrefix: string := "https://www.europotato.org/varieties/index"
  const ViewPrefix: string := "https://www.europotato.org/varieties/view/"

  /** The handler a page is delegated to. */
  datatype Target = Index | View

  datatype Error = NotImplementedError(message: string)

  /** The first position at which the two prefixes differ. */
  const Fork: nat := 37

  /** No URL starts with both prefixes. */
  lemma PrefixesDisjoint(url: string)
    ensures !(IndexPrefix <= url && ViewPrefix <= url)
  {
    assert IndexPrefix[Fork] == 'i' && ViewPrefix[Fork] == 'v';
    if IndexPrefix <= url {
      Text.MismatchRefutesPrefix(ViewPrefix, url, Fork);
    }
  }

  /** Which handler `url` is dispatched to, or the error that is raised instead. */
  function Route(url: string): (r: Result<Target, Error>)
    ensures r == Ok(Index) <==> IndexPrefix <= url
    ensures r == Ok(View) <==> ViewPrefix <= url
    ensures r.Err? <==> !(IndexPrefix <= url) && !(ViewPrefix <= url)
    ensures r.Err? ==> r == Err(NotImplementedError("No handler for URL: " + url))
  {
    PrefixesDisjoint(url);
    if IndexPrefix <= url then Ok(Index)
    else if ViewPrefix <= url then Ok(View)
    else Err(NotImplementedError("No handler for URL: " + url))
  }

  /** Anything may follow the index prefix: paging suffixes are routed to the index handler. */
  lemma IndexPagesAreRouted(suffix: string)
    ensures Route(IndexPrefix + suffix) == Ok(Index)
  {
    assert (IndexPrefix + suffix)[..|IndexPrefix|] == IndexPrefix;
  }

  /** A URL that disagrees with each prefix somewhere inside it is refused. */
  lemma RefusedByMismatch(url: string, i: nat, j: nat)
    requires i < |IndexPrefix| && (i >= |url| || url[i] != IndexPrefix[i])
    requires j < |ViewPrefix| && (j >= |url| || url[j] != ViewPrefix[j])
    ensures Route(url) == Err(NotImplementedError("No handler for URL: " + url))
  {
    Text.MismatchRefutesPrefix(IndexPrefix, url, i);
    Text.MismatchRefutesPrefix(ViewPrefix, url, j);
  }

  /** Case matters: `View` and `Index` are not the routed paths, whatever follows them. */
  lemma CapitalisedPathsAreRefused(rest: string)
    ensures Route("https://www.europotato.org/varieties/View" + rest).Err?
    ensures Route("https://www.europotato.org/varieties/Index" + rest).Err?
  {
    var view := "https://www.europotato.org/varieties/View" + rest;
    var index := "https://www.europotato.org/varieties/Index" + rest;
    assert view[Fork] == 'V' && index[Fork] == 'I';
    RefusedByMismatch(view, Fork, Fork);
    RefusedByMismatch(index, Fork, Fork);
  }

  /** The view prefix ends in a slash, which must be present. */
  lemma ViewWithoutSlashIsRefused()
    ensures Route("https://www.europotato.org/varieties/view").Err?
  {
    RefusedByMismatch("https://www.europotato.org/varieties/view", Fork, 41);
  }

  /** Plain `http` is refused, whatever follows the scheme. */
  lemma PlainHttpIsRefused(rest: string)
    ensures Route("http://" + rest).Err?
  {
    var url := "http://" + rest;
    assert url[4] == ':';
    RefusedByMismatch(url, 4, 4);
  }

  /** The `.com` host is refused, whatever follows it. */
  lemma OtherHostIsRefused(rest: string)
    ensures Route("https://www.europotato.com" + rest).Err?
  {
    var url := "https://www.europotato.com" + rest;
    assert url[23] == 'c';
    RefusedByMismatch(url, 23, 23);
  }
}
