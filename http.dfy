/** What a service call hands to the HTTP client: a method, a URL and,
    for uploads, the multipart content type. The client itself, the
    request bodies and the responses are outside the model. */
module Http {
  import opened Wrappers
  import opened Text
  import opened Decimal

  datatype Method = Get | Post | Put | Delete

  datatype Request = Request(verb: Method, url: string, multipart: bool)

  /** A plain JSON request. */
  function Call(verb: Method, url: string): Request {
    Request(verb, url, false)
  }

  /** `page || 0`: an absent page and a page of 0 both give 0. */
  function PageOr(page: Option<int>): (r: int)
    ensures page.Some? && page.value != 0 ==> r == page.value
    ensures r == 0 <==> page.None? || page.value == 0
  {
    if page.Some? && page.value != 0 then page.value else 0
  }

  /** `size || 100`: an absent size and a size of 0 both give 100. */
  function SizeOr(size: Option<int>): (r: int)
    ensures size.Some? && size.value != 0 ==> r == size.value
    ensures size.None? || size.value == 0 ==> r == 100
  {
    if size.Some? && size.value != 0 then size.value else 100
  }

  /** `name || ''`: the name, or the empty string. */
  function NameOr(name: Option<string>): (r: string)
    ensures r == "" <==> !Truthy(name)
  {
    StringOr(name, "")
  }

  /** `${resourceUrl}?page=${page || 0}&size=${size || 100}&name=${name || ''}`,
      with the name inserted without URL encoding. */
  function ListUrl(resource: string, page: Option<int>, size: Option<int>, name: Option<string>): (url: string)
    ensures StartsWith(url, resource + "?page=")
    ensures url[|resource| + 1..] == ListQuery(page, size, name)
  {
    resource + "?" + ListQuery(page, size, name)
  }

  /** The part of a list URL after the `?`. */
  function ListQuery(page: Option<int>, size: Option<int>, name: Option<string>): (query: string) {
    ("page=" + IntToString(PageOr(page))) + "&" + (("size=" + IntToString(SizeOr(size))) + "&" + ("name=" + NameOr(name)))
  }

  /** The query of a list URL: for a name without `&`, exactly the three
      parameters page, size and name, where page and size read back as the
      defaulted numbers and the name comes through verbatim; a name holding
      `&` splits into extra parameters. */
  lemma ListUrlQuery(resource: string, page: Option<int>, size: Option<int>, name: Option<string>)
    ensures var url := ListUrl(resource, page, size, name);
            var p := IntToString(PageOr(page));
            var s := IntToString(SizeOr(size));
            var query := url[|resource| + 1..];
            ParseInt(p) == Some(PageOr(page)) &&
            ParseInt(s) == Some(SizeOr(size)) &&
            ('&' !in NameOr(name) ==> Split(query, '&') == ["page=" + p, "size=" + s, "name=" + NameOr(name)]) &&
            ('&' in NameOr(name) ==> |Split(query, '&')| > 3)
  {
    var p := IntToString(PageOr(page));
    var s := IntToString(SizeOr(size));
    var n := NameOr(name);
    var query := ListQuery(page, size, name);
    var rest := ("size=" + s) + ['&'] + ("name=" + n);
    SplitAfterWord("page=" + p, '&', rest);
    SplitAfterWord("size=" + s, '&', "name=" + n);
    assert Split(query, '&') == ["page=" + p, "size=" + s] + Split("name=" + n, '&');
    if '&' !in n {
      SplitWithoutSeparator("name=" + n, '&');
    } else {
      SplitWithSeparator("name=" + n, '&');
    }
    ParseIntToString(PageOr(page));
    ParseIntToString(SizeOr(size));
  }

  /** A word free of the separator, followed by the separator, is
      determined by the string: it is everything before the first one. */
  lemma SeparatedWordUnique(w1: string, t1: string, w2: string, t2: string, c: char)
    requires c !in w1 && c !in w2
    requires w1 + [c] + t1 == w2 + [c] + t2
    ensures w1 == w2 && t1 == t2
  {
    SplitAfterWord(w1, c, t1);
    SplitAfterWord(w2, c, t2);
    assert w1 == Split(w1 + [c] + t1, c)[0] == w2;
    assert t1 == (w1 + [c] + t1)[|w1| + 1..];
    assert t2 == (w2 + [c] + t2)[|w2| + 1..];
  }

  /** Two list URLs of the same resource are equal only when the defaulted
      page, size and name are: the URL determines the query. */
  lemma ListUrlInjective(resource: string, page1: Option<int>, size1: Option<int>, name1: Option<string>,
                         page2: Option<int>, size2: Option<int>, name2: Option<string>)
    requires ListUrl(resource, page1, size1, name1) == ListUrl(resource, page2, size2, name2)
    ensures PageOr(page1) == PageOr(page2) && SizeOr(size1) == SizeOr(size2) && NameOr(name1) == NameOr(name2)
  {
    assert ListQuery(page1, size1, name1) == ListQuery(page2, size2, name2) by {
      assert ListUrl(resource, page1, size1, name1)[|resource| + 1..] == ListUrl(resource, page2, size2, name2)[|resource| + 1..];
    }
    ListQueryInjective(page1, size1, name1, page2, size2, name2);
  }

  lemma ListQueryInjective(page1: Option<int>, size1: Option<int>, name1: Option<string>,
                           page2: Option<int>, size2: Option<int>, name2: Option<string>)
    requires ListQuery(page1, size1, name1) == ListQuery(page2, size2, name2)
    ensures PageOr(page1) == PageOr(page2) && SizeOr(size1) == SizeOr(size2) && NameOr(name1) == NameOr(name2)
  {
    var p1, s1, n1 := IntToString(PageOr(page1)), IntToString(SizeOr(size1)), NameOr(name1);
    var p2, s2, n2 := IntToString(PageOr(page2)), IntToString(SizeOr(size2)), NameOr(name2);
    SeparatedWordUnique("page=" + p1, ("size=" + s1) + "&" + ("name=" + n1), "page=" + p2, ("size=" + s2) + "&" + ("name=" + n2), '&');
    assert p1 == ("page=" + p1)[5..];
    assert p2 == ("page=" + p2)[5..];
    IntToStringInjective(PageOr(page1), PageOr(page2));
    SeparatedWordUnique("size=" + s1, "name=" + n1, "size=" + s2, "name=" + n2, '&');
    assert s1 == ("size=" + s1)[5..];
    assert s2 == ("size=" + s2)[5..];
    IntToStringInjective(SizeOr(size1), SizeOr(size2));
    assert n1 == ("name=" + n1)[5..];
    assert n2 == ("name=" + n2)[5..];
  }

  /** A list URL carries a `?` right after the resource, so it is neither
      the bare resource nor one of its item paths. */
  lemma ListUrlIsNotItemUrl(resource: string, page: Option<int>, size: Option<int>, name: Option<string>, id: string)
    ensures ListUrl(resource, page, size, name) != resource
    ensures ListUrl(resource, page, size, name) != ResourcePath(resource, id)
  {
    var url := ListUrl(resource, page, size, name);
    assert url[|resource|] == '?';
    assert ResourcePath(resource, id)[|resource|] == '/';
  }
}
