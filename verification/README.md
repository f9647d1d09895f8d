# PersonsManager, modelled in Dafny

A model of the `PersonsManager` component of crud-react. The component shows a paginated and sortable list of persons, served by a REST backend. It covers three things:

- **The `links` header parser** (`parseLinkHeader`). It turns a comma-separated list of `<url>; rel="name"` sections into `{name, url, text}` records. It fails on an empty or missing header and on a section that does not split on `;` into exactly two pieces.
- **The list state and its operations.** The initial `state`, `componentDidMount`, `getPersons`, `savePerson`, `deletePerson`, `sortByChanged`, `sortDirChanged`, `perPageChanged` and a navigation button's click. `getPersons` builds the list query `/persons?page=..&perPage=..&sortBy=..&sortDir=..` from the state, or takes an endpoint given to it. It then takes over the body, the parsed links and the `x-page`/`x-last-page` numbers of the response in a single `setState`.
- **The navigation-button predicate.** A button is disabled when its label parses to the current page, when the page is the last one and the label is `last`/`next`, or when the page is 1 and the label is `first`/`prev`.

Files:

- `wrappers.dfy`: `Option` and `Result`.
- `js_text.dfy`: the JavaScript string built-ins the component relies on, each with its characterising lemmas. These are `split`, `trim` (the ECMAScript white-space set), the regex replacement `/<(.*)>/ → '$1'`, `substr`, `parseInt`, and the rendering of numbers in template literals.
- `link_header.dfy`: the header parser. It is a loop method, proved equal to a recursive definition, plus the lemmas about that definition.
- `persons_manager.dfy`: the state as a `ListState` value and as the fields of the class `Manager`. It also holds the request builders, the response application `Apply`, the button predicate `Disabled`, and a reference reading of a list query (`QueryValue`).
- `manager_properties.dfy`: the lemmas about the state machine, the requests and the buttons.

The network is a parameter. Each operation that fetches receives the response its request produced, and returns that request. `None` stands for a network error, which the fetch wrapper swallows and turns into `undefined`. Responses are applied one at a time, in the order the operations are called.

Four behaviours of the code worth knowing:

- **Labels keep a dash.** The label is `name.substr(4)`, which drops four characters, so a relation `page-next` gets the label `-next`. With relations named `page-...`, the `first`/`prev`/`next`/`last` buttons are therefore never disabled (`DashedWordsNeverDisable`). A numbered relation `page-3` gets the label `-3`, which parses as −3, so the current page's button stays enabled (`DashedNumbersNeverDisable`).
- **Failures leave `loading` alone.** When the response, its body or its links fail, `getPersons` throws before `setState` and the state is left as it was, `loading` included (`LoadingSettles`).
- **No guard against out-of-order responses.** Whichever response is applied last wins, whatever the order in which the requests were made (`LastResponseWins`).
- **`setTimeout` between mutator and refetch.** The three mutators wait with `setTimeout` instead of passing the new value to the fetch. The model runs "update, then fetch" in sequence, and the request then carries the new value (`QueryRoundTrip` with the mutators' contracts).

## Model

| member | source | states |
|---|---|---|
| JsText.Split | src/components/PersonManager.js:103 | `split` always gives at least one piece, and no piece holds the separator |
| JsText.SplitJoin | src/components/PersonManager.js:103 | splitting pieces joined by a separator they do not contain gives the same pieces back |
| JsText.JoinSplit | src/components/PersonManager.js:103 | joining the pieces of a split with the separator gives the original text back |
| JsText.Trim | src/components/PersonManager.js:111-112 | `trim` leaves no white space at either end and never lengthens the text |
| JsText.TrimPadded | src/components/PersonManager.js:111-112 | trimming ignores any white space put around a text |
| JsText.LastIndexIn | src/components/PersonManager.js:111-112 | finds the last occurrence of a character in a range, and None exactly when there is none |
| JsText.FirstMatch | src/components/PersonManager.js:111-112 | the regex `P(.*)c` matches at the leftmost start where the opener is followed by a closer on the same line, with the greedy group ending at that line's last closer; None when there is no such start |
| JsText.ReplaceGroup | src/components/PersonManager.js:111-112 | `replace(/P(.*)c/, '$1')` never lengthens the text, and when the pattern matches it removes exactly the opener and the closer (`FirstMatch` says where) |
| JsText.ReplaceGroupPadded | src/components/PersonManager.js:111-112 | on a white-space-padded `<url>` or `rel="name"` the replacement removes exactly the wrapper and keeps the padding |
| JsText.Substr | src/components/PersonManager.js:113 | `substr(k)` drops the first k characters, giving the empty text when there are fewer |
| JsText.IntToText | src/components/PersonManager.js:84 | a number in a template literal is a `-` exactly when it is negative, followed by at least one digit and nothing but digits |
| JsText.NumberToText | src/components/PersonManager.js:84 | a page number in a template literal, `NaN` included, is non-empty and holds no `&` |
| JsText.ParseInt | src/components/PersonManager.js:90-91 | `parseInt` of an empty or all-white-space text is NaN |
| JsText.ParseIntPrefix | src/components/PersonManager.js:90-91 | `parseInt` skips leading white space and reads an integer's decimal text up to the first non-digit, ignoring what follows |
| JsText.ParseIntPlusPrefix | src/components/PersonManager.js:90-91 | after leading white space, a `+` followed by a run of digits reads as the run's value, whatever non-digit text follows |
| JsText.ParseIntSignWithoutDigits | src/components/PersonManager.js:216 | a `+` or `-` with no digit after it, after any white space, is NaN |
| JsText.NatDigits | src/components/PersonManager.js:84 | a number's decimal text is a non-empty digit string with that value |
| JsText.ParseIntOfIntText | src/components/PersonManager.js:90-91 | `parseInt` reads the decimal text of any integer back as that integer |
| JsText.ParseIntOfNumberText | src/components/PersonManager.js:84 | `parseInt` reads a rendered page number back, NaN included |
| JsText.ParseIntOfWord | src/components/PersonManager.js:216 | a text starting with no white space, digit or sign parses as NaN |
| LinkHeader.ParseLinkHeader | src/components/PersonManager.js:96-117 | the loop returns exactly the recursive definition `LinksOf`: a missing or empty header, or the first malformed part, is an error; otherwise one link per part |
| LinkHeader.LinkOf | src/components/PersonManager.js:107-114 | a part makes a link exactly when it splits on `;` into two sections; the only error is MalformedSection |
| LinkHeader.Collect | src/components/PersonManager.js:106-116 | a failed gathering fails with the error of one of its results |
| LinkHeader.ParseParts | src/components/PersonManager.js:106-116 | parsing the parts can fail only with MalformedSection |
| LinkHeader.ParseLinks | src/components/PersonManager.js:98-116 | the header's text fails with EmptyHeader exactly when it is empty, and never with MissingHeader |
| LinkHeader.LinksOf | src/components/PersonManager.js:96-99 | a parse succeeds only on a present, non-empty `links` header, and fails with MissingHeader exactly when the header is absent |
| LinkHeader.CollectResult | src/components/PersonManager.js:106-116 | gathering results stops at the first error and otherwise keeps every value, in order |
| LinkHeader.ParsePartsResult | src/components/PersonManager.js:106-116 | the parts parse exactly when each makes a link, the only error is a malformed section, and links come one per part in input order |
| LinkHeader.ParseLinksContract | src/components/PersonManager.js:97-110 | an empty header fails with EmptyHeader; otherwise the parse succeeds if and only if every comma-separated part splits on `;` into two pieces, and then gives one link per part in order |
| LinkHeader.LinkFields | src/components/PersonManager.js:111-113 | in every link url and name carry no white space at either end, and the label is the name without its first four characters, or empty when the name is shorter |
| LinkHeader.SectionLink | src/components/PersonManager.js:107-114 | a padded `<url>; rel="name"` section makes the link with the trimmed url, the trimmed name and its label |
| LinkHeader.RoundTrip | src/components/PersonManager.js:96-117 | well-formed sections joined by commas parse back to one link per section, in order |
| LinkHeader.TwoLinks | src/components/PersonManager.js:96-117 | a two-section header gives its two links, each labelled with its relation minus four characters |
| LinkHeader.NextFirstHeader | src/components/PersonManager.js:111-113 | `rel="page-next"` and `rel="page-first"` give the labels `-next` and `-first` |
| LinkHeader.ExtraSectionRejected | src/components/PersonManager.js:107-110 | a part with two `;` makes the whole header fail with MalformedSection |
| PersonsManager.Initial | src/components/PersonManager.js:52-61 | the initial state is loading, with no records or links, page 1, last page unknown, sorted by lastName ascending, 5 per page |
| PersonsManager.Truthy | src/components/PersonManager.js:120 | an id is truthy exactly when it is not absent, not 0 and not the empty string |
| PersonsManager.IdText | src/components/PersonManager.js:121 | an id in a template literal: a numeric id reads back through `parseInt` as the same number, a string id stands as it is |
| PersonsManager.QueryEndpoint | src/components/PersonManager.js:84 | the list query lies below `/persons?` (what it carries: `QueryRoundTrip`) |
| PersonsManager.RequestEndpoint | src/components/PersonManager.js:84 | `endpoint \|\| query` is never empty, and a non-empty endpoint is used as given |
| PersonsManager.HeaderInt | src/components/PersonManager.js:90-91 | a missing page header reads as NaN |
| PersonsManager.Apply | src/components/PersonManager.js:86-92 | a response is applied only when it arrived with a body; applying it ends loading, takes over the body and keeps sort key, direction and page size |
| PersonsManager.AfterFetch | src/components/PersonManager.js:85-92 | after a fetch the state is the old one or the applied response, and a fetch never changes the sort key, the direction or the page size |
| PersonsManager.WriteRequest | src/components/PersonManager.js:119-124 | the record is the body; the verb is PUT exactly when the id is truthy, and POST otherwise |
| PersonsManager.DeleteRequest | src/components/PersonManager.js:131 | a DELETE with no body, to an endpoint below `/persons/` |
| PersonsManager.Disabled | src/components/PersonManager.js:215-219 | a button is disabled only while the page number is known: while it is NaN every button is enabled |
| PersonsManager.Manager.constructor | src/components/PersonManager.js:52-61 | a new component holds the initial state |
| PersonsManager.Manager.GetPersons | src/components/PersonManager.js:83-94 | requests the given endpoint, or the list query built from the current state when it is empty; the new state is the response applied to the old one |
| PersonsManager.Manager.ComponentDidMount | src/components/PersonManager.js:63-65 | mounting fetches the list query of the current state |
| PersonsManager.Manager.SavePerson | src/components/PersonManager.js:119-128 | sends the write chosen by the id, then refetches the current query whatever the write's outcome |
| PersonsManager.Manager.DeletePerson | src/components/PersonManager.js:130-133 | sends the delete, then refetches the current query |
| PersonsManager.Manager.SortByChanged | src/components/PersonManager.js:149-153 | changes only the sort key, and the refetch's query is built with the new key |
| PersonsManager.Manager.SortDirChanged | src/components/PersonManager.js:156-160 | changes only the sort direction, and the refetch's query is built with the new direction |
| PersonsManager.Manager.PerPageChanged | src/components/PersonManager.js:162-166 | changes only the page size, and the refetch's query is built with the new size |
| PersonsManager.Manager.Navigate | src/components/PersonManager.js:222 | a button's click fetches its link's url, or the current query when the url is empty |
| ManagerProperties.ApplyOutcome | src/components/PersonManager.js:86-92 | a response is applied if and only if it arrived, its body is a list and its links header is non-empty with every part splitting in two; failures are classified; success ends loading and takes over the records, the page numbers and one link per part, each the link that part makes; sort and size are kept |
| ManagerProperties.LoadingSettles | src/components/PersonManager.js:86-92 | loading stays on exactly while no response has been applied, and a failed response changes nothing |
| ManagerProperties.ApplyReadsOnlySettings | src/components/PersonManager.js:84-92 | what a response does depends only on the sort key, direction and page size held before, never on the old records, links or page numbers |
| ManagerProperties.LastResponseWins | src/components/PersonManager.js:86-92 | the last applied response decides the state, whatever was applied before it |
| ManagerProperties.HeaderIntRoundTrip | src/components/PersonManager.js:90-91 | an `x-page`/`x-last-page` header holding a number's text reads as that number; a missing one reads as NaN |
| ManagerProperties.QueryPairs | src/components/PersonManager.js:84 | the query template is the list path followed by four `key=value` pairs joined by `&` |
| ManagerProperties.QueryLookups | src/components/PersonManager.js:84 | each of the four query keys finds its own pair |
| ManagerProperties.QueryRoundTrip | src/components/PersonManager.js:84 | the list query carries the state it was built from: page and size parse back to the state's numbers, sort key and direction come back verbatim |
| ManagerProperties.WriteTargets | src/components/PersonManager.js:119-124 | a truthy id gives PUT `/persons/<id>`, and a numeric id reads back from the path; an absent, 0 or empty id gives POST `/persons`; the record is the body |
| ManagerProperties.DeleteTargets | src/components/PersonManager.js:130-131 | a delete goes to `/persons/` followed by the id's text, with no body; a numeric id reads back from the path; a missing id targets `/persons/undefined` |
| ManagerProperties.NumberButton | src/components/PersonManager.js:215-219 | a numbered button is disabled exactly on its own page |
| ManagerProperties.WordButtons | src/components/PersonManager.js:215-219 | `first` and `prev` are disabled exactly on page 1; `next` and `last` exactly on the last page |
| ManagerProperties.DashedLabelEnabled | src/components/PersonManager.js:215-219 | a label made of a dash and a non-digit is never disabled |
| ManagerProperties.DashedWordsNeverDisable | src/components/PersonManager.js:113 | the label of a `page-<word>` relation never disables its button |
| ManagerProperties.DashedNumbersNeverDisable | src/components/PersonManager.js:113 | the label of a `page-<n>` relation reads as −n, so the current page's button stays enabled |
| ManagerProperties.PageTwoOfFive | src/components/PersonManager.js:86-92 | a response with a parsable header, `x-page: 2` and `x-last-page: 5` sets records, links and pages 2 of 5 at once |
| ManagerProperties.SecondOfFive | src/components/PersonManager.js:86-92 | the same with a `next` and a `first` link: the links are taken over as parsed |
| ManagerProperties.SecondOfFiveButtons | src/components/PersonManager.js:215-219 | on page 2 of 5 the `-next` and `-first` buttons are enabled |

## Left out

- The fetch wrapper (src/components/PersonManager.js:67-81) is not modelled. A fetch is its request plus the response supplied as a parameter. The API root prefix, the JSON serialisation of the body and the request headers are not modelled.
- The outcome of the write in `savePerson`/`deletePerson` is not modelled; the source ignores it as well.
- The `setTimeout(…, 1)` in the three mutators is not modelled. The model updates the field and then fetches, in sequence.
- Concurrency between pending fetches is not modelled. Responses are applied in the order the operations are called; `LastResponseWins` states what follows from that.
- The response body is not modelled as general JSON: it is either a list of persons or not JSON at all. Other JSON values, which the source would store in `persons` unchecked, are not modelled, and neither is the HTTP status.
- Header names are taken as given, in lower case. The case-insensitive lookup of `Headers.get` is not modelled.
- Strings are sequences of Unicode code points. JavaScript's UTF-16 code units, which `substr` and `.` in a regex count, are not modelled.
- The following parts of JavaScript number handling are not modelled:
  - `parseInt`'s `0x` prefix;
  - precision loss above 2^53;
  - floating-point ids and page sizes;
  - the exponent form of very large numbers in template literals.
- `history.goBack()` (src/components/PersonManager.js:126) is not modelled, and neither is the rest of the routing and rendering: `render`, `renderDeleteModal`, `renderPersonEditor`, the lodash `find` lookups and the Material-UI components. These are UI only.
- src/components/DeleteModal.js and src/components/AppHeader.js are not part of this model; they are presentational.
- ManagerProperties.QueryRoundTrip: assumes the sort key and direction hold no `&`. The source does not escape them, so such a value would read back cut short.
