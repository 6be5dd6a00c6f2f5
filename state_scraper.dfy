/** The request-based scraper of health_info/state.py: one attempt per
    profile, the name and address split into whitespace tokens, the state
    taken from the address when it has one, and the main loop that keeps the
    records. The HTTP request is replaced by its outcome: the page, or `None`
    when the request or its status check failed. */
module StateScraper {
  import opened Optional
  import opened PyStr
  import opened DoctorRecords

  datatype NameSplit = NameSplit(title: string, forename: string, surname: string)

  /** Lines 68-70 on the tokens of the heading: the last token is the title,
      the one before it the surname, and the rest the forename joined by
      single spaces, so that splitting the forename again and adding surname
      and title gives back every token. */
  function SplitName(tokens: seq<string>): (r: NameSplit)
    requires |tokens| >= 3
    ensures r.title == tokens[|tokens| - 1] && r.surname == tokens[|tokens| - 2]
    ensures (forall k :: 0 <= k < |tokens| ==> IsWord(tokens[k])) ==>
              SplitWs(r.forename) + [r.surname, r.title] == tokens
    ensures (forall k :: 0 <= k < |tokens| ==> IsWord(tokens[k])) ==>
              Join(" ", SplitWs(r.forename)) == r.forename
  {
    var n := |tokens|;
    var front := tokens[..n - 2];
    if forall k :: 0 <= k < |front| ==> IsWord(front[k]) then
      SplitWsJoin(front);
      assert front + [tokens[n - 2], tokens[n - 1]] == tokens;
      NameSplit(tokens[n - 1], Join(" ", front), tokens[n - 2])
    else
      NameSplit(tokens[n - 1], Join(" ", front), tokens[n - 2])
  }

  datatype AddressSplit = AddressSplit(street: string, city: string, statePostcode: string, postcode: string)

  /** Lines 58-61 on the address tokens: counted from the end, the postcode,
      the state and the city, each present only when there are enough tokens,
      and before them the street, those tokens joined by single spaces. With
      three tokens or more the split loses nothing; with fewer, street and city are empty and the tokens left are
      the state and the postcode. */
  function SplitAddress(parts: seq<string>): (r: AddressSplit)
    ensures |parts| >= 3 && (forall k :: 0 <= k < |parts| ==> IsWord(parts[k])) ==>
              SplitWs(r.street) + [r.city, r.statePostcode, r.postcode] == parts
    ensures |parts| >= 3 && (forall k :: 0 <= k < |parts| ==> IsWord(parts[k])) ==>
              Join(" ", SplitWs(r.street)) == r.street
    ensures |parts| < 3 ==> r.street == "" && r.city == ""
    ensures |parts| == 2 ==> [r.statePostcode, r.postcode] == parts
    ensures |parts| == 1 ==> r.statePostcode == "" && [r.postcode] == parts
    ensures parts == [] ==> r == AddressSplit("", "", "", "")
  {
    var n := |parts|;
    if n >= 3 then
      StreetRoundTrip(parts);
      AddressSplit(Join(" ", parts[..n - 3]), parts[n - 3], parts[n - 2], parts[n - 1])
    else
      AddressSplit("", "", if n >= 2 then parts[n - 2] else "", if n >= 1 then parts[n - 1] else "")
  }

  /** The words before the last three, joined and split again, are those
      words. */
  lemma StreetRoundTrip(parts: seq<string>)
    requires |parts| >= 3
    ensures var n := |parts|;
      (forall k :: 0 <= k < n ==> IsWord(parts[k])) ==>
        && SplitWs(Join(" ", parts[..n - 3])) == parts[..n - 3]
        && SplitWs(Join(" ", parts[..n - 3])) + [parts[n - 3], parts[n - 2], parts[n - 1]] == parts
  {
    var n := |parts|;
    if forall k :: 0 <= k < n ==> IsWord(parts[k]) {
      var front := parts[..n - 3];
      assert forall k :: 0 <= k < |front| ==> front[k] == parts[k];
      SplitWsJoin(front);
      assert front + [parts[n - 3], parts[n - 2], parts[n - 1]] == parts;
    }
  }

  /** Line 62: the first whitespace token of the state token, or "" when
      there is none. A state token is a single word, so this is the token. */
  function StateFromAddress(statePostcode: string): (r: string)
    requires statePostcode == "" || IsWord(statePostcode)
    ensures r == statePostcode
  {
    if statePostcode == "" then ""
    else
      SplitWsWord(statePostcode);
      SplitWs(statePostcode)[0]
  }

  /** The dict built at lines 67-94: the name split, the address split, the
      state found in the address (the CSV state when none is), copies of the
      field map and of the task, and fixed empty columns; state.py has no
      full-address column. */
  function Record(task: ProfileTask, data: map<string, string>, name: NameSplit,
                  addr: AddressSplit, fromAddr: string): DoctorRecord {
    DoctorRecord(
      name.title, Text(name.forename), name.surname, None,
      Get(data, "Practice Name"), Get(data, "Specialty"), addr.street, addr.city,
      if fromAddr != "" then fromAddr else task.state, addr.postcode, Country, Get(data, "Specialty"),
      "", Get(data, "Phone"), "", "",
      "", "", "", "",
      "", "", "", "",
      Get(data, "Practice Name"), Get(data, "Website"), task.url)
  }

  /** `scrape_profile` of state.py: `None` when the request fails, when the
      page has no title heading or when the heading has fewer than three
      tokens; otherwise the record. */
  function Attempt(task: ProfileTask, fetch: Option<Page>): Option<DoctorRecord> {
    if fetch.None? || fetch.value.heading.None? then None
    else
      var data := FieldMapOf(fetch.value.rows);
      var tokens := SplitWs(fetch.value.heading.value);
      if |tokens| < 3 then None
      else
        var addr := SplitAddress(SplitWs(Get(data, "Practice Address")));
        Some(Record(task, data, SplitName(tokens), addr, StateFromAddress(addr.statePostcode)))
  }

  /** The statements of `scrape_profile`, with the field-map loop. */
  method ScrapeProfile(task: ProfileTask, fetch: Option<Page>) returns (r: Option<DoctorRecord>)
    ensures r == Attempt(task, fetch)
  {
    if fetch.None? {
      return None;
    }
    var data := BuildFieldMap(fetch.value.rows);
    if fetch.value.heading.None? {
      return None;
    }
    var doctorName := SplitWs(fetch.value.heading.value);
    if |doctorName| < 3 {
      return None;
    }
    var addressParts := SplitWs(Get(data, "Practice Address"));
    var addr := SplitAddress(addressParts);
    var stateFromAddr := StateFromAddress(addr.statePostcode);
    var name := SplitName(doctorName);
    r := Some(Record(task, data, name, addr, stateFromAddr));
  }

  /** A record comes back exactly when the page arrived with a title heading
      of at least three tokens. It then holds the name split, the address
      split, the second-last address token as state (the CSV state when the
      address has fewer than two tokens), the fixed country, practice name
      as both institution and workplace, specialty as both department and
      specialty, the input URL, every label read as the last paired row
      carrying it, and "" in each of the eleven fixed empty columns. */
  lemma AttemptRecord(task: ProfileTask, fetch: Option<Page>)
    ensures Attempt(task, fetch).Some? <==>
      fetch.Some? && fetch.value.heading.Some? && |SplitWs(fetch.value.heading.value)| >= 3
    ensures Attempt(task, fetch).Some? ==>
      var r := Attempt(task, fetch).value; var rows := fetch.value.rows;
      var tokens := SplitWs(fetch.value.heading.value); var n := |tokens|;
      var parts := SplitWs(LastValue(rows, "Practice Address"));
      && r.title == tokens[n - 1] && r.surname == tokens[n - 2]
      && r.forename == Text(Join(" ", tokens[..n - 2]))
      && r.street == SplitAddress(parts).street && r.city == SplitAddress(parts).city
      && r.postcode == SplitAddress(parts).postcode
      && r.state == (if |parts| >= 2 then parts[|parts| - 2] else task.state)
      && r.country == "United States" && r.sourceResultUrl == task.url && r.fullAddress.None?
      && r.institution == r.workplace == LastValue(rows, "Practice Name")
      && r.department == r.specialty == LastValue(rows, "Specialty")
      && r.tel1 == LastValue(rows, "Phone") && r.website == LastValue(rows, "Website")
      && r.regNumber == r.tel2 == r.tel3 == r.fax1 == r.fax2 == r.fax3 == ""
      && r.mobile == r.email1 == r.email2 == r.language == r.gender == ""
  {
    if fetch.Some? {
      var rows := fetch.value.rows;
      GetIsLastValue(rows, "Practice Name");
      GetIsLastValue(rows, "Specialty");
      GetIsLastValue(rows, "Phone");
      GetIsLastValue(rows, "Website");
      GetIsLastValue(rows, "Practice Address");
    }
  }

  /** The outcome of each task's single request. */
  type Oracle = ProfileTask -> Option<Page>

  /** The outcome of every task. */
  function Outcomes(tasks: seq<ProfileTask>, fetch: Oracle): (os: seq<Option<DoctorRecord>>)
    ensures |os| == |tasks|
    ensures forall j :: 0 <= j < |tasks| ==> os[j] == Attempt(tasks[j], fetch(tasks[j]))
  {
    seq(|tasks|, j requires 0 <= j < |tasks| => Attempt(tasks[j], fetch(tasks[j])))
  }

  /** The module's global `results` list. */
  class Collector {
    var results: seq<DoctorRecord>

    constructor()
      ensures results == []
    {
      results := [];
    }

    /** The main block, run one task after another: the rows are
        de-duplicated by URL, each task scraped once, and every record kept. */
    method Run(rows: seq<ProfileTask>, fetch: Oracle)
      modifies this
      ensures results == old(results) + Somes(Outcomes(Dedup(rows), fetch))
    {
      var tasks := Dedup(rows);
      ghost var os := Outcomes(tasks, fetch);
      var i := 0;
      while i < |tasks|
        invariant 0 <= i <= |tasks|
        invariant results == old(results) + Somes(os[..i])
      {
        SomesExtend(old(results), os, i);
        var r := ScrapeProfile(tasks[i], fetch(tasks[i]));
        if r.Some? {
          results := results + [r.value];
        }
        i := i + 1;
      }
      assert os[..i] == os;
    }
  }
}
