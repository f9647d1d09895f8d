/**
 * What the component's operations promise: how a response changes the list
 * state, that the list query carries the state it was built from, where the
 * writes go, and when the navigation buttons are disabled.
 */
module ManagerProperties {
  import opened Wrappers
  import opened JsText
  import opened LinkHeader
  import opened PersonsManager

  // ---------------------------------------------------------------------------
  // Applying a list response

  /**
   * A response is applied exactly when it arrived, its body is a list of
   * persons and its links header parses; it then replaces the records, the
   * links (one per comma-separated part, each the link that part makes) and
   * the page numbers at once and ends loading. Otherwise it fails for the
   * first of those reasons.
   */
  lemma ApplyOutcome(s: ListState, resp: Option<Response>)
    ensures Apply(s, resp).Ok? <==>
              resp.Some? && resp.value.body.Some? && "links" in resp.value.headers
              && resp.value.headers["links"] != ""
              && AllTwoSections(Split(resp.value.headers["links"], ','))
    ensures resp.None? ==> Apply(s, resp) == Err(NoResponse)
    ensures resp.Some? && resp.value.body.None? ==> Apply(s, resp) == Err(BadBody)
    ensures resp.Some? && resp.value.body.Some? && "links" !in resp.value.headers ==>
              Apply(s, resp) == Err(BadLinks(MissingHeader))
    ensures Apply(s, resp).Ok? ==>
              var t := Apply(s, resp).value;
              var h := resp.value.headers;
              var parts := Split(h["links"], ',');
              !t.loading
              && t.persons == resp.value.body.value
              && |t.pageLinks| == |parts|
              && (forall i :: 0 <= i < |parts| ==> LinkOf(parts[i]) == Ok(t.pageLinks[i]))
              && t.page == HeaderInt(h, "x-page") && t.lastPage == HeaderInt(h, "x-last-page")
              && t.sortBy == s.sortBy && t.sortDir == s.sortDir && t.perPage == s.perPage
  {
    if resp.Some? && resp.value.body.Some? && "links" in resp.value.headers {
      ParseLinksContract(resp.value.headers["links"]);
    }
  }

  /**
   * Loading ends with the first applied response and never comes back; a
   * response that is not applied changes nothing.
   */
  lemma LoadingSettles(s: ListState, resp: Option<Response>)
    ensures AfterFetch(s, resp).loading <==> s.loading && Apply(s, resp).Err?
    ensures Apply(s, resp).Err? ==> AfterFetch(s, resp) == s
  {
  }

  /**
   * Whichever applied response settles last decides records, links and page
   * numbers, whatever was applied before it: nothing ties the state to the
   * most recent request.
   */
  lemma LastResponseWins(s: ListState, first: Option<Response>, second: Option<Response>)
    requires second.Some? && second.value.body.Some? && LinksOf(second.value.headers).Ok?
    ensures AfterFetch(AfterFetch(s, first), second) == AfterFetch(s, second)
  {
    var t := AfterFetch(s, first);
    ApplyReadsOnlySettings(s, t, second);
  }

  /**
   * What a response does depends on nothing the state holds but its sort
   * key, sort direction and page size: records, links, page numbers and the
   * loading flag held before are all overwritten or the response fails.
   */
  lemma ApplyReadsOnlySettings(s: ListState, t: ListState, resp: Option<Response>)
    requires t.sortBy == s.sortBy && t.sortDir == s.sortDir && t.perPage == s.perPage
    ensures Apply(t, resp) == Apply(s, resp)
  {
    if resp.Some? && resp.value.body.Some? && LinksOf(resp.value.headers).Ok? {
      assert Apply(t, resp).value == Apply(s, resp).value;
    }
  }

  /** A page-number header written by the server reads back as that number; a missing one reads as NaN. */
  lemma HeaderIntRoundTrip(headers: map<string, string>, name: string, n: int)
    ensures name in headers && headers[name] == IntToText(n) ==> HeaderInt(headers, name) == Some(n)
    ensures name !in headers ==> HeaderInt(headers, name) == None
  {
    if name in headers && headers[name] == IntToText(n) {
      ParseIntOfIntText(n);
    }
    if name !in headers {
      ParseIntOfWord("null");
    }
  }

  // ---------------------------------------------------------------------------
  // The list query

  lemma JoinFour(a: string, b: string, c: string, d: string, sep: char)
    ensures Join([a, b, c, d], sep) == a + [sep] + b + [sep] + c + [sep] + d
  {
    assert [a, b, c, d][1..] == [b, c, d];
    assert [b, c, d][1..] == [c, d];
    assert [c, d][1..] == [d];
    assert Join([c, d], sep) == c + [sep] + d;
    assert Join([b, c, d], sep) == b + [sep] + (c + [sep] + d);
    assert Join([a, b, c, d], sep) == a + [sep] + (b + [sep] + (c + [sep] + d));
  }

  /** The list query as a path and four `key=value` pairs. */
  lemma QueryPairs(page: string, perPage: string, sortBy: string, sortDir: string)
    ensures "/persons?page=" + page + "&perPage=" + perPage + "&sortBy=" + sortBy + "&sortDir=" + sortDir
         == ListPath + Join(["page=" + page, "perPage=" + perPage, "sortBy=" + sortBy, "sortDir=" + sortDir], '&')
  {
    JoinFour("page=" + page, "perPage=" + perPage, "sortBy=" + sortBy, "sortDir=" + sortDir, '&');
    QueryLiterals();
  }

  lemma QueryLiterals()
    ensures "/persons?page=" == ListPath + "page="
    ensures "&perPage=" == "&" + "perPage="
    ensures "&sortBy=" == "&" + "sortBy="
    ensures "&sortDir=" == "&" + "sortDir="
  {
  }

  /** Each of the four keys finds its own pair: none of them is a prefix of an earlier one. */
  lemma QueryLookups(page: string, perPage: string, sortBy: string, sortDir: string)
    ensures var pairs := ["page=" + page, "perPage=" + perPage, "sortBy=" + sortBy, "sortDir=" + sortDir];
            Lookup(pairs, "page") == Some(page) && Lookup(pairs, "perPage") == Some(perPage)
            && Lookup(pairs, "sortBy") == Some(sortBy) && Lookup(pairs, "sortDir") == Some(sortDir)
  {
    var pairs := ["page=" + page, "perPage=" + perPage, "sortBy=" + sortBy, "sortDir=" + sortDir];
    assert pairs == [pairs[0]] + pairs[1..];
    assert pairs[1..] == [pairs[1]] + pairs[2..];
    assert pairs[2..] == [pairs[2]] + pairs[3..];
    assert pairs[3..] == [pairs[3]] + [];
    LookupHit("page", page, pairs[1..]);
    LookupSkip(pairs[0], pairs[1..], "perPage", 1);
    LookupHit("perPage", perPage, pairs[2..]);
    LookupSkip(pairs[0], pairs[1..], "sortBy", 0);
    LookupSkip(pairs[1], pairs[2..], "sortBy", 0);
    LookupHit("sortBy", sortBy, pairs[3..]);
    LookupSkip(pairs[0], pairs[1..], "sortDir", 0);
    LookupSkip(pairs[1], pairs[2..], "sortDir", 0);
    LookupSkip(pairs[2], pairs[3..], "sortDir", 4);
    LookupHit("sortDir", sortDir, []);
  }

  lemma LookupHit(key: string, v: string, rest: seq<string>)
    ensures Lookup([key + "=" + v] + rest, key) == Some(v)
  {
    var p := key + "=" + v;
    assert p[..|key| + 1] == key + "=";
  }

  lemma LookupSkip(p: string, rest: seq<string>, key: string, k: nat)
    requires k <= |key| && k < |p| && p[k] != (key + "=")[k]
    ensures Lookup([p] + rest, key) == Lookup(rest, key)
  {
    assert ([p] + rest)[1..] == rest;
    if |key| < |p| {
      assert p[..|key| + 1][k] != (key + "=")[k];
    }
  }

  /**
   * The list query carries the state it was built from: the page and the
   * page size parse back to the state's numbers (NaN included), and the sort
   * key and direction come back verbatim, provided neither holds an `&`.
   */
  lemma QueryRoundTrip(s: ListState)
    requires '&' !in s.sortBy && '&' !in s.sortDir
    ensures var e := QueryEndpoint(s);
            QueryValue(e, "page").Some? && ParseInt(QueryValue(e, "page").value) == s.page
            && QueryValue(e, "perPage").Some? && ParseInt(QueryValue(e, "perPage").value) == Some(s.perPage)
            && QueryValue(e, "sortBy") == Some(s.sortBy)
            && QueryValue(e, "sortDir") == Some(s.sortDir)
  {
    var page, perPage := NumberToText(s.page), IntToText(s.perPage);
    var pairs := ["page=" + page, "perPage=" + perPage, "sortBy=" + s.sortBy, "sortDir=" + s.sortDir];
    QueryPairs(page, perPage, s.sortBy, s.sortDir);
    var e := QueryEndpoint(s);
    assert e == ListPath + Join(pairs, '&');
    assert e[..|ListPath|] == ListPath && e[|ListPath|..] == Join(pairs, '&');
    assert '&' !in page && '&' !in perPage;
    SplitJoin(pairs, '&');
    QueryLookups(page, perPage, s.sortBy, s.sortDir);
    ParseIntOfNumberText(s.page);
    ParseIntOfIntText(s.perPage);
  }

  // ---------------------------------------------------------------------------
  // Writes

  /**
   * A record with a truthy id is updated in place at `/persons/<id>`, and a
   * numeric id in that path reads back as the same number; a record whose id
   * is absent, `0` or `""` is created at `/persons`. The record is the body
   * either way.
   */
  lemma WriteTargets(person: Person)
    ensures WriteRequest(person).body == Some(person)
    ensures Truthy(person.id) ==>
              WriteRequest(person).verb == Put
              && WriteRequest(person).endpoint == "/persons/" + IdText(person.id)
    ensures person.id.Num? && person.id.n != 0 ==>
              ParseInt(WriteRequest(person).endpoint[|"/persons/"|..]) == Some(person.id.n)
    ensures !Truthy(person.id) ==> WriteRequest(person) == Request(Post, "/persons", Some(person))
  {
    if person.id.Num? && person.id.n != 0 {
      ParseIntOfIntText(person.id.n);
      assert WriteRequest(person).endpoint[|"/persons/"|..] == IntToText(person.id.n);
    }
  }

  /**
   * A delete targets `/persons/<id>` with no body; a numeric id reads back
   * from the path, and a record without an id targets `/persons/undefined`.
   */
  lemma DeleteTargets(person: Person)
    ensures DeleteRequest(person).verb == Delete && DeleteRequest(person).body == None
    ensures DeleteRequest(person).endpoint == "/persons/" + IdText(person.id)
    ensures person.id.Num? ==>
              ParseInt(DeleteRequest(person).endpoint[|"/persons/"|..]) == Some(person.id.n)
    ensures person.id.NoId? ==> DeleteRequest(person).endpoint == "/persons/undefined"
  {
    if person.id.Num? {
      ParseIntOfIntText(person.id.n);
      assert DeleteRequest(person).endpoint[|"/persons/"|..] == IntToText(person.id.n);
    }
  }

  // ---------------------------------------------------------------------------
  // Navigation buttons

  /** A number's text never spells one of the four navigation words. */
  lemma IntTextIsNoWord(k: int)
    ensures IntToText(k) != "first" && IntToText(k) != "prev"
    ensures IntToText(k) != "next" && IntToText(k) != "last"
  {
    var t := IntToText(k);
    var ds := NatDigits(if k < 0 then -k else k);
    assert IsDigit(ds[0]);
    assert t[0] == '-' || IsDigit(t[0]);
  }

  /** A numbered button is disabled exactly on its own page. */
  lemma NumberButton(page: int, lastPage: Option<int>, k: int)
    ensures Disabled(Some(page), lastPage, IntToText(k)) <==> page == k
  {
    ParseIntOfIntText(k);
    IntTextIsNoWord(k);
  }

  /**
   * `first` and `prev` are disabled exactly on page 1, `next` and `last`
   * exactly on the last page.
   */
  lemma WordButtons(page: int, lastPage: Option<int>)
    ensures Disabled(Some(page), lastPage, "first") <==> page == 1
    ensures Disabled(Some(page), lastPage, "prev") <==> page == 1
    ensures Disabled(Some(page), lastPage, "next") <==> lastPage == Some(page)
    ensures Disabled(Some(page), lastPage, "last") <==> lastPage == Some(page)
  {
    ParseIntOfWord("first");
    ParseIntOfWord("prev");
    ParseIntOfWord("next");
    ParseIntOfWord("last");
  }

  /** A label made of a dash and a word is neither a number nor a navigation word, so it never disables. */
  lemma DashedLabelEnabled(page: Option<int>, lastPage: Option<int>, text: string)
    requires |text| >= 2 && text[0] == '-' && !IsDigit(text[1])
    ensures !Disabled(page, lastPage, text)
  {
    assert text != "first" && text != "prev" && text != "next" && text != "last";
    ParseIntOfUnpadded(text);
  }

  /**
   * With a relation named `page-<word>` the label keeps the dash, so the
   * `first`, `prev`, `next` and `last` buttons are never disabled, not even
   * on the first or the last page.
   */
  lemma DashedWordsNeverDisable(page: Option<int>, lastPage: Option<int>, word: string)
    requires |word| >= 1 && !IsDigit(word[0])
    ensures !Disabled(page, lastPage, Substr("page-" + word, 4))
  {
    var text := Substr("page-" + word, 4);
    assert text == "-" + word;
    DashedLabelEnabled(page, lastPage, text);
  }

  /**
   * With a relation named `page-<n>` the label reads as the negative number
   * `-n`, so on any page from 1 up the button of the current page stays
   * enabled.
   */
  lemma DashedNumbersNeverDisable(page: int, lastPage: Option<int>, n: nat)
    requires page >= 1
    ensures !Disabled(Some(page), lastPage, Substr("page-" + IntToText(n), 4))
  {
    var ds := NatDigits(n);
    var text := Substr("page-" + IntToText(n), 4);
    assert text == "-" + ds;
    assert text[1..] == ds;
    ParseDigitsOfDigits(ds);
    ParseSignedOfMinus(text, n);
    ParseIntOfUnpadded(text);
    assert text != "first" && text != "prev" && text != "next" && text != "last";
  }

  // ---------------------------------------------------------------------------
  // A response worked through

  /**
   * Page 2 of 5 with a `next` and a `first` link: the records, the page
   * numbers and the two links are taken over at once.
   */
  lemma SecondOfFive(s: ListState, next: string, first: string, body: seq<Person>)
    requires PlainText(next) && Unpadded(next) && PlainText(first) && Unpadded(first)
    ensures var header := "<" + next + ">; rel=\"page-next\"" + "," + "<" + first + ">; rel=\"page-first\"";
            AfterFetch(s, Some(Response(Some(body), map["links" := header, "x-page" := "2", "x-last-page" := "5"])))
            == s.(loading := false, persons := body,
                  pageLinks := [Link("page-next", next, "-next"), Link("page-first", first, "-first")],
                  page := Some(2), lastPage := Some(5))
  {
    var header := "<" + next + ">; rel=\"page-next\"" + "," + "<" + first + ">; rel=\"page-first\"";
    var links := [Link("page-next", next, "-next"), Link("page-first", first, "-first")];
    NextFirstHeader(next, first);
    PageTwoOfFive(s, header, links, body);
  }

  /** On page 2 of 5 neither of those two links is disabled: their labels are no navigation word and no number. */
  lemma SecondOfFiveButtons(next: string, first: string)
    ensures var links := [Link("page-next", next, "-next"), Link("page-first", first, "-first")];
            forall i :: 0 <= i < |links| ==> !Disabled(Some(2), Some(5), links[i].text)
  {
    DashedLabelEnabled(Some(2), Some(5), "-next");
    DashedLabelEnabled(Some(2), Some(5), "-first");
  }

  lemma PageTwoOfFive(s: ListState, header: string, links: seq<Link>, body: seq<Person>)
    requires ParseLinks(header) == Ok(links)
    ensures AfterFetch(s, Some(Response(Some(body), map["links" := header, "x-page" := "2", "x-last-page" := "5"])))
         == s.(loading := false, persons := body, pageLinks := links, page := Some(2), lastPage := Some(5))
  {
    var h := map["links" := header, "x-page" := "2", "x-last-page" := "5"];
    assert LinksOf(h) == Ok(links);
    PageHeaders(h);
  }

  lemma PageHeaders(h: map<string, string>)
    requires "x-page" in h && h["x-page"] == "2" && "x-last-page" in h && h["x-last-page"] == "5"
    ensures HeaderInt(h, "x-page") == Some(2) && HeaderInt(h, "x-last-page") == Some(5)
  {
    assert IntToText(2) == "2" && IntToText(5) == "5";
    HeaderIntRoundTrip(h, "x-page", 2);
    HeaderIntRoundTrip(h, "x-last-page", 5);
  }
}
