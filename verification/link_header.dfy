/**
 * The parser of the `links` response header (`parseLinkHeader`): a
 * comma-separated list of `<url>; rel="name"` sections, loosely after the
 * `Link` header of RFC 8288, turned into `{name, url, text}` records in
 * header order.
 */
module LinkHeader {
  import opened Wrappers
  import opened JsText

  /** One pagination link: its relation name, its target and its button label. */
  datatype Link = Link(name: string, url: string, text: string)

  datatype LinkError =
    | MissingHeader     // the response has no `links` header: reading its length throws
    | EmptyHeader       // "input must not be of zero length"
    | MalformedSection  // "section could not be split on ';'"

  /** A part splits on `;` into exactly two sections. */
  predicate TwoSections(part: string) {
    |Split(part, ';')| == 2
  }

  /**
   * One comma-separated part as one link: the text before `;` with its
   * `<...>` removed, the text after `;` with its `rel="..."` unwrapped, both
   * trimmed, and the label `name.substr(4)`.
   */
  function LinkOf(part: string): (r: Result<Link, LinkError>)
    ensures r.Ok? <==> TwoSections(part)
    ensures r.Err? ==> r.error == MalformedSection
  {
    var section := Split(part, ';');
    if |section| != 2 then Err(MalformedSection)
    else
      var url := Trim(ReplaceGroup(section[0], "<", '>'));
      var name := Trim(ReplaceGroup(section[1], "rel=\"", '"'));
      Ok(Link(name, url, Substr(name, 4)))
  }

  /** Results gathered left to right; the first error ends the gathering. */
  function Collect<T, E>(results: seq<Result<T, E>>): (r: Result<seq<T>, E>)
    ensures r.Err? ==> exists i :: 0 <= i < |results| && results[i] == Err(r.error)
  {
    if results == [] then Ok([])
    else
      match Collect(results[..|results| - 1])
      case Err(e) => Err(e)
      case Ok(values) =>
        match results[|results| - 1]
        case Err(e) => Err(e)
        case Ok(v) => Ok(values + [v])
  }

  /**
   * Gathering succeeds exactly when every result is a success, and then
   * holds their values in order; otherwise it fails with the first error.
   */
  lemma {:induction false} CollectResult<T, E>(results: seq<Result<T, E>>)
    ensures Collect(results).Ok? <==> forall i :: 0 <= i < |results| ==> results[i].Ok?
    ensures Collect(results).Ok? ==>
              |Collect(results).value| == |results|
              && forall i :: 0 <= i < |results| ==> results[i] == Ok(Collect(results).value[i])
    ensures Collect(results).Err? ==>
              exists i :: 0 <= i < |results| && results[i] == Err(Collect(results).error)
                          && forall j :: 0 <= j < i ==> results[j].Ok?
  {
    if results != [] {
      var n := |results| - 1;
      var init := results[..n];
      CollectResult(init);
      assert forall i :: 0 <= i < n ==> init[i] == results[i];
    }
  }

  function LinkResults(parts: seq<string>): (rs: seq<Result<Link, LinkError>>)
    ensures |rs| == |parts| && forall i :: 0 <= i < |parts| ==> rs[i] == LinkOf(parts[i])
  {
    seq(|parts|, i requires 0 <= i < |parts| => LinkOf(parts[i]))
  }

  /** The parts parsed left to right; the first malformed part ends the parse. */
  function ParseParts(parts: seq<string>): (r: Result<seq<Link>, LinkError>)
    ensures r.Err? ==> r.error == MalformedSection
  {
    Collect(LinkResults(parts))
  }

  /** The value of the `links` header parsed. */
  function ParseLinks(value: string): (r: Result<seq<Link>, LinkError>)
    ensures r.Err? ==> (r.error == EmptyHeader <==> value == "")
    ensures r.Err? ==> r.error != MissingHeader
  {
    if |value| == 0 then Err(EmptyHeader) else ParseParts(Split(value, ','))
  }

  /** `parseLinkHeader(headers)`: the `links` header of a response, parsed. */
  function LinksOf(headers: map<string, string>): (r: Result<seq<Link>, LinkError>)
    ensures r.Ok? ==> "links" in headers && headers["links"] != ""
    ensures r.Err? ==> (r.error == MissingHeader <==> "links" !in headers)
  {
    if "links" !in headers then Err(MissingHeader) else ParseLinks(headers["links"])
  }

  /** The parser as the source runs it: a loop that appends one link per part and stops at the first bad one. */
  method ParseLinkHeader(headers: map<string, string>) returns (r: Result<seq<Link>, LinkError>)
    ensures r == LinksOf(headers)
  {
    if "links" !in headers {
      return Err(MissingHeader);
    }
    var linksHeader := headers["links"];
    if |linksHeader| == 0 {
      return Err(EmptyHeader);
    }
    var parts := Split(linksHeader, ',');
    var links: seq<Link> := [];
    var i := 0;
    while i < |parts|
      invariant 0 <= i <= |parts|
      invariant ParseParts(parts[..i]) == Ok(links)
    {
      var section := Split(parts[i], ';');
      if |section| != 2 {
        ParsePartsResult(parts);
        return Err(MalformedSection);
      }
      var url := Trim(ReplaceGroup(section[0], "<", '>'));
      var name := Trim(ReplaceGroup(section[1], "rel=\"", '"'));
      var text := Substr(name, 4);
      assert LinkOf(parts[i]) == Ok(Link(name, url, text));
      ParsePartsStep(parts, i, links, Link(name, url, text));
      links := links + [Link(name, url, text)];
      i := i + 1;
    }
    assert parts[..i] == parts;
    r := Ok(links);
  }

  /** One more success adds its value at the end. */
  lemma CollectSnoc<T, E>(results: seq<Result<T, E>>, values: seq<T>, v: T)
    requires Collect(results) == Ok(values)
    ensures Collect(results + [Ok(v)]) == Ok(values + [v])
  {
    assert (results + [Ok(v)])[..|results|] == results;
  }

  lemma LinkResultsSnoc(parts: seq<string>, i: nat)
    requires i < |parts|
    ensures LinkResults(parts[..i + 1]) == LinkResults(parts[..i]) + [LinkOf(parts[i])]
  {
    assert parts[..i + 1] == parts[..i] + [parts[i]];
  }

  /** One more well-formed part adds its link at the end. */
  lemma ParsePartsStep(parts: seq<string>, i: nat, links: seq<Link>, link: Link)
    requires i < |parts| && ParseParts(parts[..i]) == Ok(links) && LinkOf(parts[i]) == Ok(link)
    ensures ParseParts(parts[..i + 1]) == Ok(links + [link])
  {
    LinkResultsSnoc(parts, i);
    CollectSnoc(LinkResults(parts[..i]), links, link);
  }

  /** Results that all succeed gather to their values. */
  lemma CollectOk<T, E>(results: seq<Result<T, E>>, values: seq<T>)
    requires |results| == |values| && forall i :: 0 <= i < |results| ==> results[i] == Ok(values[i])
    ensures Collect(results) == Ok(values)
  {
    CollectResult(results);
    assert Collect(results).Ok?;
    assert Collect(results).value == values;
  }

  /** Parts that each make their link parse to those links. */
  lemma ParsePartsOf(parts: seq<string>, links: seq<Link>)
    requires |parts| == |links| && forall i :: 0 <= i < |parts| ==> LinkOf(parts[i]) == Ok(links[i])
    ensures ParseParts(parts) == Ok(links)
  {
    CollectOk(LinkResults(parts), links);
  }

  /**
   * The parts parse exactly when every one of them makes a link, fail with
   * `MalformedSection` otherwise, and give one link per part, in order.
   */
  lemma ParsePartsResult(parts: seq<string>)
    ensures ParseParts(parts).Ok? <==> forall i :: 0 <= i < |parts| ==> LinkOf(parts[i]).Ok?
    ensures ParseParts(parts).Err? ==> ParseParts(parts).error == MalformedSection
    ensures ParseParts(parts).Ok? ==>
              |ParseParts(parts).value| == |parts|
              && forall i :: 0 <= i < |parts| ==> LinkOf(parts[i]) == Ok(ParseParts(parts).value[i])
  {
    var rs := LinkResults(parts);
    CollectResult(rs);
    if Collect(rs).Err? {
      var i :| 0 <= i < |rs| && rs[i] == Err(Collect(rs).error);
      assert LinkOf(parts[i]).Err?;
    }
  }

  /** Every comma-separated part splits on `;` into two sections. */
  predicate AllTwoSections(parts: seq<string>) {
    forall i :: 0 <= i < |parts| ==> TwoSections(parts[i])
  }

  /**
   * The contract of `parseLinkHeader` on the header's text: an empty header
   * fails with `EmptyHeader`; otherwise the parse succeeds exactly when every
   * comma-separated part splits on `;` into two pieces, fails with
   * `MalformedSection` when one does not, and gives one link per part, in order.
   */
  lemma ParseLinksContract(value: string)
    ensures value == "" ==> ParseLinks(value) == Err(EmptyHeader)
    ensures value != "" ==> (ParseLinks(value).Ok? <==> AllTwoSections(Split(value, ',')))
    ensures value != "" && ParseLinks(value).Err? ==> ParseLinks(value).error == MalformedSection
    ensures ParseLinks(value).Ok? ==>
              var parts := Split(value, ',');
              |ParseLinks(value).value| == |parts|
              && forall i :: 0 <= i < |parts| ==> LinkOf(parts[i]) == Ok(ParseLinks(value).value[i])
  {
    if value != "" {
      var parts := Split(value, ',');
      assert ParseLinks(value) == ParseParts(parts);
      ParsePartsResult(parts);
      if ParseParts(parts).Ok? {
        forall i | 0 <= i < |parts|
          ensures TwoSections(parts[i])
        {
          assert LinkOf(parts[i]).Ok?;
        }
      } else {
        var i :| 0 <= i < |parts| && !LinkOf(parts[i]).Ok?;
        assert !TwoSections(parts[i]);
      }
    }
  }

  /**
   * What each link holds: name and url carry no white space at either end,
   * and the label is the name without its first four characters, or empty
   * when the name is shorter.
   */
  lemma LinkFields(part: string)
    ensures LinkOf(part).Ok? ==>
              var link := LinkOf(part).value;
              (link.url == [] || (!IsWhitespace(link.url[0]) && !IsWhitespace(link.url[|link.url| - 1])))
              && (link.name == [] || (!IsWhitespace(link.name[0]) && !IsWhitespace(link.name[|link.name| - 1])))
              && (|link.name| >= 4 ==> link.name == link.name[..4] + link.text)
              && (|link.name| < 4 ==> link.text == "")
  {
    var section := Split(part, ';');
    if |section| == 2 {
      var url := Trim(ReplaceGroup(section[0], "<", '>'));
      var name := Trim(ReplaceGroup(section[1], "rel=\"", '"'));
      assert LinkOf(part) == Ok(Link(name, url, Substr(name, 4)));
    }
  }

  // ---------------------------------------------------------------------------
  // Round trip: a header written section by section parses back to its links.

  /** The pieces of one section of a header: white space may surround the `<url>` and the `rel="..."`. */
  datatype Section = Section(lead: string, url: string, gap: string, space: string, rel: string, trail: string)

  predicate PlainText(s: string) {
    forall k :: 0 <= k < |s| ==> s[k] != ',' && s[k] != ';' && !IsLineTerminator(s[k])
  }

  predicate WellFormed(sec: Section) {
    AllWhitespace(sec.lead) && AllWhitespace(sec.gap) && AllWhitespace(sec.space) && AllWhitespace(sec.trail)
    && PlainText(sec.url) && PlainText(sec.rel)
  }

  /** `lead<url>gap;spacerel="rel"trail` */
  function Render(sec: Section): string
  {
    sec.lead + "<" + sec.url + ">" + sec.gap + ";" + sec.space + "rel=\"" + sec.rel + "\"" + sec.trail
  }

  function Renders(secs: seq<Section>): (r: seq<string>)
    ensures |r| == |secs| && forall i :: 0 <= i < |secs| ==> r[i] == Render(secs[i])
  {
    seq(|secs|, i requires 0 <= i < |secs| => Render(secs[i]))
  }

  /** The link a well-formed section stands for. */
  function Intended(sec: Section): Link
  {
    var name := Trim(sec.rel);
    Link(name, Trim(sec.url), Substr(name, 4))
  }

  lemma WhitespaceIsPlain(w: string)
    requires AllWhitespace(w)
    ensures forall k :: 0 <= k < |w| ==> w[k] != ',' && w[k] != ';'
  {
  }

  /** A well-formed section splits on `;` into its `<url>` half and its `rel` half. */
  lemma SplitSection(sec: Section)
    requires WellFormed(sec)
    ensures ',' !in Render(sec)
    ensures Split(Render(sec), ';') ==
              [sec.lead + "<" + sec.url + ">" + sec.gap, sec.space + "rel=\"" + sec.rel + "\"" + sec.trail]
  {
    var first := sec.lead + "<" + sec.url + ">" + sec.gap;
    var second := sec.space + "rel=\"" + sec.rel + "\"" + sec.trail;
    WhitespaceIsPlain(sec.lead);
    WhitespaceIsPlain(sec.gap);
    WhitespaceIsPlain(sec.space);
    WhitespaceIsPlain(sec.trail);
    assert Render(sec) == first + [';'] + second;
    assert Join([first, second], ';') == first + [';'] + second;
    SplitJoin([first, second], ';');
  }

  /** A well-formed section parses to the link it stands for. */
  lemma SectionLink(sec: Section)
    requires WellFormed(sec)
    ensures ',' !in Render(sec)
    ensures LinkOf(Render(sec)) == Ok(Intended(sec))
  {
    SplitSection(sec);
    assert sec.lead + "<" + sec.url + ">" + sec.gap == sec.lead + "<" + sec.url + ['>'] + sec.gap;
    ReplaceGroupPadded(sec.lead, "<", sec.url, '>', sec.gap);
    TrimPadded(sec.lead, sec.url, sec.gap);
    assert sec.space + "rel=\"" + sec.rel + "\"" + sec.trail
        == sec.space + "rel=\"" + sec.rel + ['"'] + sec.trail;
    ReplaceGroupPadded(sec.space, "rel=\"", sec.rel, '"', sec.trail);
    TrimPadded(sec.space, sec.rel, sec.trail);
  }

  /**
   * Round trip: sections written out and joined with commas parse back to
   * one link per section, in order, each with the section's trimmed url and
   * relation and the relation's label.
   */
  lemma RoundTrip(secs: seq<Section>)
    requires |secs| >= 1 && forall i :: 0 <= i < |secs| ==> WellFormed(secs[i])
    ensures ParseLinks(Join(Renders(secs), ',')).Ok?
    ensures |ParseLinks(Join(Renders(secs), ',')).value| == |secs|
    ensures forall i :: 0 <= i < |secs| ==> ParseLinks(Join(Renders(secs), ',')).value[i] == Intended(secs[i])
  {
    var parts := Renders(secs);
    var links := seq(|secs|, i requires 0 <= i < |secs| => Intended(secs[i]));
    RenderedLinks(secs, parts, links);
    JoinedLinks(parts, links);
  }

  lemma RenderedLinks(secs: seq<Section>, parts: seq<string>, links: seq<Link>)
    requires forall i :: 0 <= i < |secs| ==> WellFormed(secs[i])
    requires |parts| == |links| == |secs|
    requires forall i :: 0 <= i < |secs| ==> parts[i] == Render(secs[i]) && links[i] == Intended(secs[i])
    ensures forall i :: 0 <= i < |parts| ==> parts[i] != "" && ',' !in parts[i] && LinkOf(parts[i]) == Ok(links[i])
  {
    forall i | 0 <= i < |parts|
      ensures parts[i] != "" && ',' !in parts[i] && LinkOf(parts[i]) == Ok(links[i])
    {
      SectionLink(secs[i]);
    }
  }

  /** Parts free of commas, each making its link, joined with commas parse back to those links. */
  lemma JoinedLinks(parts: seq<string>, links: seq<Link>)
    requires |parts| >= 1 && |links| == |parts|
    requires forall i :: 0 <= i < |parts| ==> parts[i] != "" && ',' !in parts[i] && LinkOf(parts[i]) == Ok(links[i])
    ensures ParseLinks(Join(parts, ',')) == Ok(links)
  {
    SplitJoin(parts, ',');
    assert parts[0] != "";
    ParsePartsOf(parts, links);
  }

  // ---------------------------------------------------------------------------
  // Two headers worked through.

  predicate Unpadded(s: string) {
    s == [] || (!IsWhitespace(s[0]) && !IsWhitespace(s[|s| - 1]))
  }

  /** The section `<url>; rel="rel"`, as a server writes it. */
  function Plain(url: string, rel: string): Section
  {
    Section("", url, "", " ", rel, "")
  }

  lemma PlainLink(url: string, rel: string, tail: string)
    requires PlainText(url) && Unpadded(url) && PlainText(rel) && Unpadded(rel)
    requires |rel| >= 4 && tail == rel[4..]
    ensures WellFormed(Plain(url, rel))
    ensures Intended(Plain(url, rel)) == Link(rel, url, tail)
  {
    TrimOfUnpadded(url);
    TrimOfUnpadded(rel);
  }

  lemma RenderPlain(url: string, rel: string)
    ensures Render(Plain(url, rel)) == "<" + url + ">; rel=\"" + rel + "\""
  {
    var sec := Plain(url, rel);
    calc {
      Render(sec);
      "" + "<" + url + ">" + "" + ";" + " " + "rel=\"" + rel + "\"" + "";
      "<" + url + (">" + ";" + " " + "rel=\"") + rel + "\"";
    }
  }

  lemma TwoSectionHeader(u1: string, r1: string, u2: string, r2: string)
    ensures Join(Renders([Plain(u1, r1), Plain(u2, r2)]), ',')
         == "<" + u1 + ">; rel=\"" + r1 + "\"" + "," + "<" + u2 + ">; rel=\"" + r2 + "\""
  {
    var parts := Renders([Plain(u1, r1), Plain(u2, r2)]);
    RenderPlain(u1, r1);
    RenderPlain(u2, r2);
    assert parts == [Render(Plain(u1, r1)), Render(Plain(u2, r2))];
    assert Join(parts, ',') == parts[0] + [','] + parts[1];
  }

  /** Two plainly written sections give their two links, in order. */
  lemma TwoLinks(u1: string, r1: string, u2: string, r2: string)
    requires PlainText(u1) && Unpadded(u1) && PlainText(r1) && Unpadded(r1) && |r1| >= 4
    requires PlainText(u2) && Unpadded(u2) && PlainText(r2) && Unpadded(r2) && |r2| >= 4
    ensures ParseLinks("<" + u1 + ">; rel=\"" + r1 + "\"" + "," + "<" + u2 + ">; rel=\"" + r2 + "\"")
         == Ok([Link(r1, u1, r1[4..]), Link(r2, u2, r2[4..])])
  {
    TwoSectionHeader(u1, r1, u2, r2);
    TwoPlainLinks(u1, r1, u2, r2);
  }

  lemma TwoPlainLinks(u1: string, r1: string, u2: string, r2: string)
    requires PlainText(u1) && Unpadded(u1) && PlainText(r1) && Unpadded(r1) && |r1| >= 4
    requires PlainText(u2) && Unpadded(u2) && PlainText(r2) && Unpadded(r2) && |r2| >= 4
    ensures ParseLinks(Join(Renders([Plain(u1, r1), Plain(u2, r2)]), ','))
         == Ok([Link(r1, u1, r1[4..]), Link(r2, u2, r2[4..])])
  {
    PlainLink(u1, r1, r1[4..]);
    PlainLink(u2, r2, r2[4..]);
    RoundTripTwo(Plain(u1, r1), Plain(u2, r2), Link(r1, u1, r1[4..]), Link(r2, u2, r2[4..]));
  }

  lemma RoundTripTwo(s1: Section, s2: Section, l1: Link, l2: Link)
    requires WellFormed(s1) && WellFormed(s2) && l1 == Intended(s1) && l2 == Intended(s2)
    ensures ParseLinks(Join(Renders([s1, s2]), ',')) == Ok([l1, l2])
  {
    var secs, links := [s1, s2], [l1, l2];
    assert forall i :: 0 <= i < 2 ==> WellFormed(secs[i]) && links[i] == Intended(secs[i]);
    RoundTripLinks(secs, links);
  }

  lemma RoundTripLinks(secs: seq<Section>, links: seq<Link>)
    requires |secs| >= 1 && forall i :: 0 <= i < |secs| ==> WellFormed(secs[i])
    requires |links| == |secs| && forall i :: 0 <= i < |secs| ==> links[i] == Intended(secs[i])
    ensures ParseLinks(Join(Renders(secs), ',')) == Ok(links)
  {
    RoundTrip(secs);
    assert ParseLinks(Join(Renders(secs), ',')).value == links;
  }

  /**
   * A `next` and a `first` link: the labels are the relations without their
   * first four characters, so `page-next` is labelled `-next` (the prefix
   * `page-` has five characters).
   */
  lemma NextFirstHeader(next: string, first: string)
    requires PlainText(next) && Unpadded(next) && PlainText(first) && Unpadded(first)
    ensures ParseLinks("<" + next + ">; rel=\"page-next\"" + "," + "<" + first + ">; rel=\"page-first\"")
         == Ok([Link("page-next", next, "-next"), Link("page-first", first, "-first")])
  {
    var n, f := "page-next", "page-first";
    assert PlainText(n) && PlainText(f) && Unpadded(n) && Unpadded(f);
    assert n[4..] == "-next" && f[4..] == "-first";
    NextFirstText(next, first);
    TwoLinks(next, n, first, f);
  }

  lemma NextFirstText(next: string, first: string)
    ensures "<" + next + ">; rel=\"page-next\"" + "," + "<" + first + ">; rel=\"page-first\""
         == "<" + next + ">; rel=\"" + "page-next" + "\"" + "," + "<" + first + ">; rel=\"" + "page-first" + "\""
  {
    assert ">; rel=\"" + "page-next" + "\"" == ">; rel=\"page-next\"";
    assert ">; rel=\"" + "page-first" + "\"" == ">; rel=\"page-first\"";
  }

  /** A part with a second `;` is malformed, and so is the whole header. */
  lemma ExtraSectionRejected(a: string, b: string, c: string)
    requires ';' !in a && ';' !in b && ';' !in c
    requires ',' !in a && ',' !in b && ',' !in c
    ensures ParseLinks(a + ";" + b + ";" + c) == Err(MalformedSection)
  {
    var value := a + ";" + b + ";" + c;
    assert Join([b, c], ';') == b + ";" + c;
    assert Join([a, b, c], ';') == a + ";" + Join([b, c], ';');
    assert Join([a, b, c], ';') == value;
    SplitJoin([a, b, c], ';');
    assert ',' !in value;
    SplitNoSeparator(value, ',');
    assert LinkOf(value).Err?;
    ParsePartsResult([value]);
  }
}
