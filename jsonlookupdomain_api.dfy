/** The registration branch of the campus domain's entity lookup: when
    the user asks about registration, live data from the campus API
    replaces the database answer. The database query, the API call and
    the XPath evaluation are inputs here. */
module JsonLookupDomainApi {
  import opened Wrappers
  import opened PyStr

  /** What the database query, the course request and the XPath
      evaluation produced. `Failed` stands for an exception anywhere in
      them; `Found` holds the course id, the `.text` of every
      registration-status element (`None` when an element has no text)
      and every registration link found. */
  datatype Lookup =
    | Failed
    | Found(courseId: int, statuses: seq<Option<string>>, links: seq<string>)

  type Info = map<string, string>

  const NoLink: string := "The link could not be found."

  /** `f"{x}"` for an element text that may be `None`. */
  function Format(text: Option<string>): string {
    match text
    case None => "None"
    case Some(s) => s
  }

  /** The link reported with a known status: the first link found, or the
      fallback message when there is none. */
  function RegistrationLink(links: seq<string>): (link: string)
    ensures links != [] ==> link == links[0]
    ensures links == [] ==> link == NoLink
  {
    if |links| > 0 then links[0] else NoLink
  }

  /** The registration status element, when there is one, read as the
      source compares it. */
  function FirstStatus(lookup: Lookup): string
    requires lookup.Found? && lookup.statuses != []
  {
    Format(lookup.statuses[0])
  }

  /** The answer to a registration question: one dictionary whose
      `registration` entry tells the outcome, against the lookup that
      produces it. An exception gives `exception`, no status element
      `not_found`, a running or closed registration `True` or `False`
      with the link, and any other status `unexpected_status` with the
      status text and the course id. */
  function RegistrationInfo(lookup: Lookup): (r: seq<Info>)
    ensures |r| == 1 && "registration" in r[0]
    ensures r[0]["registration"] == "exception" <==> lookup.Failed?
    ensures r[0]["registration"] == "not_found" <==> lookup.Found? && lookup.statuses == []
    ensures r[0]["registration"] == "True" <==>
      lookup.Found? && lookup.statuses != [] && FirstStatus(lookup) == "RUNNING"
    ensures r[0]["registration"] == "False" <==>
      lookup.Found? && lookup.statuses != [] && FirstStatus(lookup) == "NONE"
    ensures r[0]["registration"] == "unexpected_status" <==>
      lookup.Found? && lookup.statuses != []
      && FirstStatus(lookup) != "RUNNING" && FirstStatus(lookup) != "NONE"
    ensures r[0]["registration"] in {"True", "False"} ==>
      r[0].Keys == {"registration", "link"} && r[0]["link"] == RegistrationLink(lookup.links)
    ensures r[0]["registration"] in {"exception", "not_found"} ==> r[0].Keys == {"registration"}
    ensures r[0]["registration"] == "unexpected_status" ==>
      r[0].Keys == {"registration", "status", "course_id"}
      && r[0]["status"] == FirstStatus(lookup)
      && r[0]["course_id"] == IntToString(lookup.courseId)
  {
    match lookup
    case Failed => [map["registration" := "exception"]]
    case Found(courseId, statuses, links) =>
      if !(|statuses| > 0) then [map["registration" := "not_found"]]
      else
        var link := RegistrationLink(links);
        var status := Format(statuses[0]);
        if status == "RUNNING" then [map["registration" := "True", "link" := link]]
        else if status == "NONE" then [map["registration" := "False", "link" := link]]
        else [map["registration" := "unexpected_status", "status" := status,
                  "course_id" := IntToString(courseId)]]
  }

  /** `find_info_about_entity`: a request naming the slot `registration`
      is answered from the lookup, any other (and a missing or empty set
      of requested slots) by the database lookup of the base class, whose
      answer is `parent`. */
  function FindInfoAboutEntity(requestedSlots: Option<set<string>>, lookup: Lookup, parent: seq<Info>): (r: seq<Info>)
    ensures requestedSlots.Some? && "registration" in requestedSlots.value ==>
      r == RegistrationInfo(lookup) && |r| == 1
    ensures !(requestedSlots.Some? && "registration" in requestedSlots.value) ==> r == parent
  {
    // the truthiness test `requested_slots and ...`: None and the empty set fail it
    if requestedSlots.Some? && requestedSlots.value != {} && "registration" in requestedSlots.value then
      RegistrationInfo(lookup)
    else
      parent
  }
}
