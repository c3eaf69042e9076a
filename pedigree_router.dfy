/**
 * URL dispatch of the Potato Pedigree crawler: a page is handed to the search
 * handler or to the image-map handler according to a case-sensitive prefix of
 * its URL; any other URL is refused with NotImplementedError.
 */
module PedigreeRouter {
  import opened Wrappers
  import Text

  const SearchPrefix: string := "https://www.plantbreeding.wur.nl/PotatoPedigree/multilookup.php"
  const ImagemapPrefix: string := "https://www.plantbreeding.wur.nl/PotatoPedigree/pedigree_imagemap.php?id="

  /** The handler a page is delegated to. */
  datatype Target = Search | Imagemap

  datatype Error = NotImplementedError(message: string)

  /** The first position at which the two prefixes differ. */
  const Fork: nat := 48

  /** No URL starts with both prefixes. */
  lemma PrefixesDisjoint(url: string)
    ensures !(SearchPrefix <= url && ImagemapPrefix <= url)
  {
    assert SearchPrefix[Fork] == 'm' && ImagemapPrefix[Fork] == 'p';
    if SearchPrefix <= url {
      Text.MismatchRefutesPrefix(ImagemapPrefix, url, Fork);
    }
  }

  /** Which handler `url` is dispatched to, or the error that is raised instead. */
  function Route(url: string): (r: Result<Target, Error>)
    ensures r == Ok(Search) <==> SearchPrefix <= url
    ensures r == Ok(Imagemap) <==> ImagemapPrefix <= url
    ensures r.Err? <==> !(SearchPrefix <= url) && !(ImagemapPrefix <= url)
    ensures r.Err? ==> r == Err(NotImplementedError("No handler for URL: " + url))
  {
    PrefixesDisjoint(url);
    if SearchPrefix <= url then Ok(Search)
    else if ImagemapPrefix <= url then Ok(Imagemap)
    else Err(NotImplementedError("No handler for URL: " + url))
  }

  /** Changing any one character of the image-map prefix, a change of case included, sends the URL to the error path. */
  lemma CaseChangeIsRefused(url: string, i: nat, c: char)
    requires i < |ImagemapPrefix| <= |url| && url[..|ImagemapPrefix|] == ImagemapPrefix[i := c]
    requires c != ImagemapPrefix[i]
    ensures Route(url).Err?
  {
    assert url[i] == url[..|ImagemapPrefix|][i] == c;
    Text.MismatchRefutesPrefix(ImagemapPrefix, url, i);
    if i < Fork {
      assert SearchPrefix[i] == ImagemapPrefix[i];
      Text.MismatchRefutesPrefix(SearchPrefix, url, i);
    } else {
      // The two prefixes differ at Fork and at the position after it; the change hits at most one of them.
      var j := if i == Fork then Fork + 1 else Fork;
      assert url[j] == url[..|ImagemapPrefix|][j] == ImagemapPrefix[j] != SearchPrefix[j];
      Text.MismatchRefutesPrefix(SearchPrefix, url, j);
    }
  }

  /** Image-map pages are recognised only with the `?id=` query in place. */
  lemma MissingIdIsRefused()
    ensures Route("https://www.plantbreeding.wur.nl/PotatoPedigree/pedigree_imagemap.php?depth=8").Err?
    ensures Route("https://www.plantbreeding.wur.nl/PotatoPedigree/pedigree_imagemap.php").Err?
    ensures Route("https://www.plantbreeding.wur.nl/PotatoPedigree/").Err?
  {
    Text.MismatchRefutesPrefix(ImagemapPrefix, "https://www.plantbreeding.wur.nl/PotatoPedigree/pedigree_imagemap.php?depth=8", 70);
    Text.MismatchRefutesPrefix(ImagemapPrefix, "https://www.plantbreeding.wur.nl/PotatoPedigree/pedigree_imagemap.php", 69);
    Text.MismatchRefutesPrefix(ImagemapPrefix, "https://www.plantbreeding.wur.nl/PotatoPedigree/", 48);
    Text.MismatchRefutesPrefix(SearchPrefix, "https://www.plantbreeding.wur.nl/PotatoPedigree/pedigree_imagemap.php?depth=8", Fork);
    Text.MismatchRefutesPrefix(SearchPrefix, "https://www.plantbreeding.wur.nl/PotatoPedigree/pedigree_imagemap.php", Fork);
    Text.MismatchRefutesPrefix(SearchPrefix, "https://www.plantbreeding.wur.nl/PotatoPedigree/", Fork);
  }
}
