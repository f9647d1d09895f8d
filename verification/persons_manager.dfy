/**
 * The `PersonsManager` component: a paginated, sortable list of persons kept
 * in step with a REST backend. Each fetch sends the current page, page size
 * and sort order; the answer brings the page of records, the pagination
 * links and the page numbers; the navigation buttons are enabled or disabled
 * from the page numbers and the link labels.
 *
 * The network is a parameter: every operation that fetches receives the
 * response that the fetch produced (`None` when the request itself failed),
 * and returns the request it sent.
 */
module PersonsManager {
  import opened Wrappers
  import opened JsText
  import opened LinkHeader

  // ---------------------------------------------------------------------------
  // Records, requests and responses

  /** A record's `id` as the UI holds it: absent, a number or a string. */
  datatype Id = NoId | Num(n: int) | Str(s: string)

  /** JavaScript truthiness of an id: `undefined`, `0` and `""` are false. */
  predicate Truthy(id: Id): (t: bool)
    ensures t <==> id != NoId && id != Num(0) && id != Str("")
  {
    match id
    case NoId => false
    case Num(n) => n != 0
    case Str(s) => s != ""
  }

  /** The id as a template literal renders it. */
  function IdText(id: Id): (r: string)
    ensures id.Num? ==> ParseInt(r) == Some(id.n)
    ensures id.Str? ==> r == id.s
  {
    match id
    case NoId => "undefined"
    case Num(n) => ParseIntOfIntText(n); IntToText(n)
    case Str(s) => s
  }

  datatype Person = Person(id: Id, firstName: string, lastName: string)

  datatype Verb = Get | Post | Put | Delete

  /** One call of the fetch wrapper: verb, endpoint below the API root, JSON body. */
  datatype Request = Request(verb: Verb, endpoint: string, body: Option<Person>)

  /**
   * What a list fetch receives: the body, `None` when it is not a JSON list of
   * persons, and the response headers by (lower-case) name.
   */
  datatype Response = Response(body: Option<seq<Person>>, headers: map<string, string>)

  /** Why a list fetch changed nothing. */
  datatype FetchError =
    | NoResponse            // the fetch wrapper swallowed a network error and gave `undefined`
    | BadBody               // `response.json()` rejected
    | BadLinks(cause: LinkError)  // `parseLinkHeader` threw

  // ---------------------------------------------------------------------------
  // The component state

  /**
   * The component's `state`. `page` and `lastPage` are numbers that may be
   * NaN (`None`); `lastPage` starts out `null`, also `None`, which is safe
   * because `page`, the only thing it is compared with, is never `null`.
   */
  datatype ListState = ListState(
    loading: bool,
    persons: seq<Person>,
    pageLinks: seq<Link>,
    page: Option<int>,
    lastPage: Option<int>,
    sortBy: string,
    sortDir: string,
    perPage: int)

  /** The state before the first fetch. */
  function Initial(): (s: ListState)
    ensures s.loading && s.persons == [] && s.pageLinks == []
    ensures s.page == Some(1) && s.lastPage == None
    ensures s.sortBy == "lastName" && s.sortDir == "ASC" && s.perPage == 5
  {
    ListState(true, [], [], Some(1), None, "lastName", "ASC", 5)
  }

  /** The list endpoint for the current page, page size and sort order. */
  function QueryEndpoint(s: ListState): (e: string)
    ensures |ListPath| <= |e| && e[..|ListPath|] == ListPath
  {
    "/persons?page=" + NumberToText(s.page) + "&perPage=" + IntToText(s.perPage)
    + "&sortBy=" + s.sortBy + "&sortDir=" + s.sortDir
  }

  /** `endpoint || template`: an empty endpoint means the list query. */
  function RequestEndpoint(s: ListState, endpoint: string): (e: string)
    ensures e != ""
    ensures endpoint != "" ==> e == endpoint
  {
    if endpoint == "" then QueryEndpoint(s) else endpoint
  }

  /** `parseInt(headers.get(name))`; a missing header is `null`, which parses as the text "null". */
  function HeaderInt(headers: map<string, string>, name: string): (r: Option<int>)
    ensures name !in headers ==> r == None
  {
    if name in headers then ParseInt(headers[name])
    else ParseIntOfWord("null"); ParseInt("null")
  }

  /**
   * The `setState` of `getPersons`: body, links and page numbers together,
   * or nothing at all when the response, its body or its links fail.
   */
  function Apply(s: ListState, resp: Option<Response>): (r: Result<ListState, FetchError>)
    ensures r.Ok? ==> resp.Some? && resp.value.body == Some(r.value.persons) && !r.value.loading
    ensures r.Ok? ==> r.value.sortBy == s.sortBy && r.value.sortDir == s.sortDir && r.value.perPage == s.perPage
  {
    match resp
    case None => Err(NoResponse)
    case Some(r) =>
      if r.body.None? then Err(BadBody)
      else
        match LinksOf(r.headers)
        case Err(e) => Err(BadLinks(e))
        case Ok(links) =>
          Ok(s.(loading := false,
                persons := r.body.value,
                pageLinks := links,
                page := HeaderInt(r.headers, "x-page"),
                lastPage := HeaderInt(r.headers, "x-last-page")))
  }

  /** The state once a list fetch has settled. */
  function AfterFetch(s: ListState, resp: Option<Response>): (t: ListState)
    ensures t == s || Apply(s, resp) == Ok(t)
    ensures t.sortBy == s.sortBy && t.sortDir == s.sortDir && t.perPage == s.perPage
  {
    match Apply(s, resp)
    case Ok(t) => t
    case Err(_) => s
  }

  // ---------------------------------------------------------------------------
  // Writes

  /** `savePerson`'s request: PUT to the record when its id is truthy, POST to the collection otherwise. */
  function WriteRequest(person: Person): (r: Request)
    ensures r.body == Some(person)
    ensures r.verb == Put || r.verb == Post
    ensures r.verb == Put <==> Truthy(person.id)
  {
    if Truthy(person.id) then Request(Put, "/persons/" + IdText(person.id), Some(person))
    else Request(Post, "/persons", Some(person))
  }

  /** `deletePerson`'s request. */
  function DeleteRequest(person: Person): (r: Request)
    ensures r.verb == Delete && r.body == None
    ensures |"/persons/"| <= |r.endpoint| && r.endpoint[..|"/persons/"|] == "/persons/"
  {
    Request(Delete, "/persons/" + IdText(person.id), None)
  }

  // ---------------------------------------------------------------------------
  // Navigation buttons

  /** `===` on numbers that may be NaN: NaN equals nothing. */
  predicate StrictEq(a: Option<int>, b: Option<int>) {
    a.Some? && b.Some? && a.value == b.value
  }

  /** Whether the button of a link with label `text` is disabled. */
  predicate Disabled(page: Option<int>, lastPage: Option<int>, text: string): (d: bool)
    ensures d ==> page.Some?
  {
    StrictEq(page, ParseInt(text))
    || (StrictEq(page, lastPage) && (text == "last" || text == "next"))
    || (StrictEq(page, Some(1)) && (text == "first" || text == "prev"))
  }

  // ---------------------------------------------------------------------------
  // Reading a list query back

  const ListPath := "/persons?"

  /** The value of the first `key=value` pair that names `key`. */
  function Lookup(pairs: seq<string>, key: string): Option<string>
  {
    if pairs == [] then None
    else if |key| < |pairs[0]| && pairs[0][..|key| + 1] == key + "=" then Some(pairs[0][|key| + 1..])
    else Lookup(pairs[1..], key)
  }

  /** What a server reads as parameter `key` of a list query. */
  function QueryValue(endpoint: string, key: string): Option<string>
  {
    if |ListPath| <= |endpoint| && endpoint[..|ListPath|] == ListPath
    then Lookup(Split(endpoint[|ListPath|..], '&'), key)
    else None
  }

  // ---------------------------------------------------------------------------
  // The component

  class Manager {
    var loading: bool
    var persons: seq<Person>
    var pageLinks: seq<Link>
    var page: Option<int>
    var lastPage: Option<int>
    var sortBy: string
    var sortDir: string
    var perPage: int

    function State(): ListState
      reads this
    {
      ListState(loading, persons, pageLinks, page, lastPage, sortBy, sortDir, perPage)
    }

    constructor ()
      ensures State() == Initial()
    {
      loading, persons, pageLinks := true, [], [];
      page, lastPage := Some(1), None;
      sortBy, sortDir, perPage := "lastName", "ASC", 5;
    }

    /** Fetch a page: the given endpoint, or the list query when it is empty. */
    method GetPersons(endpoint: string, resp: Option<Response>) returns (req: Request)
      modifies this
      ensures req == Request(Get, RequestEndpoint(old(State()), endpoint), None)
      ensures State() == AfterFetch(old(State()), resp)
    {
      ghost var before := State();
      var target := endpoint;
      if target == "" {
        target := QueryEndpoint(State());
      }
      req := Request(Get, target, None);
      if resp.None? {
        return;
      }
      var r := resp.value;
      if r.body.None? {
        return;
      }
      var links := ParseLinkHeader(r.headers);
      if links.Err? {
        return;
      }
      ghost var after := before.(loading := false, persons := r.body.value, pageLinks := links.value,
                                 page := HeaderInt(r.headers, "x-page"), lastPage := HeaderInt(r.headers, "x-last-page"));
      assert Apply(before, resp) == Ok(after);
      loading := false;
      persons := r.body.value;
      pageLinks := links.value;
      page := HeaderInt(r.headers, "x-page");
      lastPage := HeaderInt(r.headers, "x-last-page");
      assert State() == after;
    }

    method ComponentDidMount(resp: Option<Response>) returns (req: Request)
      modifies this
      ensures req == Request(Get, QueryEndpoint(old(State())), None)
      ensures State() == AfterFetch(old(State()), resp)
    {
      req := GetPersons("", resp);
    }

    /** Create or update a record, then refetch the list; the write's own outcome is ignored. */
    method SavePerson(person: Person, resp: Option<Response>) returns (write: Request, refetch: Request)
      modifies this
      ensures write == WriteRequest(person)
      ensures refetch == Request(Get, QueryEndpoint(old(State())), None)
      ensures State() == AfterFetch(old(State()), resp)
    {
      if Truthy(person.id) {
        write := Request(Put, "/persons/" + IdText(person.id), Some(person));
      } else {
        write := Request(Post, "/persons", Some(person));
      }
      refetch := GetPersons("", resp);
    }

    /** Delete a record, then refetch the list. */
    method DeletePerson(person: Person, resp: Option<Response>) returns (write: Request, refetch: Request)
      modifies this
      ensures write == DeleteRequest(person)
      ensures refetch == Request(Get, QueryEndpoint(old(State())), None)
      ensures State() == AfterFetch(old(State()), resp)
    {
      write := Request(Delete, "/persons/" + IdText(person.id), None);
      refetch := GetPersons("", resp);
    }

    /** Choose the sort key, then refetch with it. */
    method SortByChanged(value: string, resp: Option<Response>) returns (req: Request)
      modifies this
      ensures req == Request(Get, QueryEndpoint(old(State()).(sortBy := value)), None)
      ensures State() == AfterFetch(old(State()).(sortBy := value), resp)
      ensures sortBy == value && sortDir == old(sortDir) && perPage == old(perPage)
    {
      sortBy := value;
      req := GetPersons("", resp);
    }

    /** Choose the sort direction, then refetch with it. */
    method SortDirChanged(value: string, resp: Option<Response>) returns (req: Request)
      modifies this
      ensures req == Request(Get, QueryEndpoint(old(State()).(sortDir := value)), None)
      ensures State() == AfterFetch(old(State()).(sortDir := value), resp)
      ensures sortDir == value && sortBy == old(sortBy) && perPage == old(perPage)
    {
      sortDir := value;
      req := GetPersons("", resp);
    }

    /** Choose the page size, then refetch with it. */
    method PerPageChanged(value: int, resp: Option<Response>) returns (req: Request)
      modifies this
      ensures req == Request(Get, QueryEndpoint(old(State()).(perPage := value)), None)
      ensures State() == AfterFetch(old(State()).(perPage := value), resp)
      ensures perPage == value && sortBy == old(sortBy) && sortDir == old(sortDir)
    {
      perPage := value;
      req := GetPersons("", resp);
    }

    /** A navigation button's click: fetch the link's url. */
    method Navigate(link: Link, resp: Option<Response>) returns (req: Request)
      modifies this
      ensures req == Request(Get, RequestEndpoint(old(State()), link.url), None)
      ensures State() == AfterFetch(old(State()), resp)
    {
      req := GetPersons(link.url, resp);
    }
  }
}
