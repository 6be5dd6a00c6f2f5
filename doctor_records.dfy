/** What the two health_info scrapers share: the label/value rows of a profile
    page, the field map built from them, the fixed doctor record, the input
    tasks and their de-duplication by URL. */
module DoctorRecords {
  import opened Optional

  /** One `<tr>` of a profile page: the stripped text of its `td.element-label`
      cell and of its `td.element-data` cell, each absent when the row has no
      such cell. */
  datatype Row = Row(labelCell: Option<string>, dataCell: Option<string>)

  /** A row contributes to the field map only when it has both cells. */
  predicate Paired(row: Row) {
    row.labelCell.Some? && row.dataCell.Some?
  }

  /** A fetched profile page, reduced to what the scrapers read from it: its
      rows and the text of its name heading (absent when the page has none). */
  datatype Page = Page(rows: seq<Row>, heading: Option<string>)

  /** One input row: the state from the CSV file and the profile URL. */
  datatype ProfileTask = ProfileTask(state: string, url: string)

  /** The entry appended to `errors` when every attempt for a task failed. */
  datatype ScrapeError = ScrapeError(url: string, state: string)

  /** The record's forename: a string, or the list `rsplit` returned when
      the name parsing fell into its `except` branch with that list bound. */
  datatype Forename = Text(text: string) | Pieces(pieces: seq<string>)

  /** The normalised doctor record, one field per output column. `fullAddress`
      is absent for the variant whose record has no `full_address` column. */
  datatype DoctorRecord = DoctorRecord(
    title: string, forename: Forename, surname: string, fullAddress: Option<string>,
    institution: string, department: string, street: string, city: string,
    state: string, postcode: string, country: string, specialty: string,
    regNumber: string, tel1: string, tel2: string, tel3: string,
    fax1: string, fax2: string, fax3: string, mobile: string,
    email1: string, email2: string, language: string, gender: string,
    workplace: string, website: string, sourceResultUrl: string)

  const Country := "United States"

  /** `data.get(key, "")` */
  function Get(data: map<string, string>, key: string): string {
    if key in data then data[key] else ""
  }

  /** The dict that the `for tr in soup.find_all('tr')` loop leaves behind:
      each paired row, in order, stores its value under its label. */
  function FieldMapOf(rows: seq<Row>): map<string, string>
    decreases |rows|
  {
    if rows == [] then map[]
    else
      var m := FieldMapOf(rows[..|rows| - 1]);
      var last := rows[|rows| - 1];
      if Paired(last) then m[last.labelCell.value := last.dataCell.value] else m
  }

  /** The loop itself (health_info/scrape_doctor.py: lines 103-110 and
      health_info/state.py: lines 36-43 hold the same loop). */
  method BuildFieldMap(rows: seq<Row>) returns (data: map<string, string>)
    ensures data == FieldMapOf(rows)
  {
    data := map[];
    var i := 0;
    while i < |rows|
      invariant 0 <= i <= |rows|
      invariant data == FieldMapOf(rows[..i])
    {
      assert rows[..i + 1][..i] == rows[..i];
      var row := rows[i];
      if row.labelCell.Some? && row.dataCell.Some? {
        data := data[row.labelCell.value := row.dataCell.value];
      }
      i := i + 1;
    }
    assert rows[..|rows|] == rows;
  }

  /** Index i is the last paired row of `rows` carrying label k. */
  ghost predicate LastWithLabel(rows: seq<Row>, k: string, i: int) {
    0 <= i < |rows| && Paired(rows[i]) && rows[i].labelCell.value == k
    && forall j :: i < j < |rows| ==> !(Paired(rows[j]) && rows[j].labelCell.value == k)
  }

  /** A label is a key exactly when some row pairs it with a value, and its
      value is the one of the last such row: later duplicates overwrite. */
  lemma {:induction false} FieldMapLastWins(rows: seq<Row>, k: string)
    ensures k in FieldMapOf(rows) <==>
            exists i :: 0 <= i < |rows| && Paired(rows[i]) && rows[i].labelCell.value == k
    ensures k in FieldMapOf(rows) ==>
            exists i :: LastWithLabel(rows, k, i) && FieldMapOf(rows)[k] == rows[i].dataCell.value
    decreases |rows|
  {
    if rows != [] {
      var init := rows[..|rows| - 1];
      var n := |rows| - 1;
      FieldMapLastWins(init, k);
      assert forall i :: 0 <= i < n ==> rows[i] == init[i];
      if Paired(rows[n]) && rows[n].labelCell.value == k {
        assert LastWithLabel(rows, k, n);
      } else if k in FieldMapOf(rows) {
        var i :| LastWithLabel(init, k, i) && FieldMapOf(init)[k] == init[i].dataCell.value;
        assert LastWithLabel(rows, k, i);
      }
    }
  }

  /** Reference reading of a label: the value of the last paired row that
      carries it, or "" when no paired row does. */
  function LastValue(rows: seq<Row>, k: string): string
    decreases |rows|
  {
    if rows == [] then ""
    else
      var last := rows[|rows| - 1];
      if Paired(last) && last.labelCell.value == k then last.dataCell.value
      else LastValue(rows[..|rows| - 1], k)
  }

  /** `data.get(k, "")` on the field map is that reference reading. */
  lemma {:induction false} GetIsLastValue(rows: seq<Row>, k: string)
    ensures Get(FieldMapOf(rows), k) == LastValue(rows, k)
    decreases |rows|
  {
    if rows != [] {
      GetIsLastValue(rows[..|rows| - 1], k);
    }
  }

  /** A label no paired row carries reads as "". */
  lemma {:induction false} MissingLabelIsEmpty(rows: seq<Row>, k: string)
    requires forall i :: 0 <= i < |rows| ==> !(Paired(rows[i]) && rows[i].labelCell.value == k)
    ensures LastValue(rows, k) == ""
    decreases |rows|
  {
    if rows != [] {
      var init := rows[..|rows| - 1];
      assert forall i :: 0 <= i < |init| ==> init[i] == rows[i];
      MissingLabelIsEmpty(init, k);
    }
  }

  /** A URL occurs among the first n tasks. */
  predicate SeenUrl(tasks: seq<ProfileTask>, n: nat, url: string)
    requires n <= |tasks|
  {
    exists j :: 0 <= j < n && tasks[j].url == url
  }

  /** `drop_duplicates(subset="DoctorProfileURL")`: keep the first task of
      every URL, in input order. */
  function Dedup(tasks: seq<ProfileTask>): (r: seq<ProfileTask>)
    ensures |r| <= |tasks|
    ensures forall a :: 0 <= a < |r| ==> r[a] in tasks
    decreases |tasks|
  {
    if tasks == [] then []
    else
      var n := |tasks| - 1;
      var kept := Dedup(tasks[..n]);
      if SeenUrl(tasks, n, tasks[n].url) then kept else kept + [tasks[n]]
  }

  /** Every task the result keeps is the first input task with its URL. */
  lemma {:induction false} DedupKeepsFirst(tasks: seq<ProfileTask>)
    ensures forall a :: 0 <= a < |Dedup(tasks)| ==>
              exists j :: 0 <= j < |tasks| && tasks[j] == Dedup(tasks)[a] && !SeenUrl(tasks, j, tasks[j].url)
    decreases |tasks|
  {
    if tasks == [] {
      assert Dedup(tasks) == [];
    } else {
      var n := |tasks| - 1;
      var init := tasks[..n];
      DedupKeepsFirst(init);
      var kept := Dedup(init);
      var d := Dedup(tasks);
      assert d == kept || d == kept + [tasks[n]];
      forall a | 0 <= a < |d|
        ensures exists j :: 0 <= j < |tasks| && tasks[j] == d[a] && !SeenUrl(tasks, j, tasks[j].url)
      {
        if a < |kept| {
          var j :| 0 <= j < |init| && init[j] == kept[a] && !SeenUrl(init, j, init[j].url);
          assert tasks[j] == init[j] && d[a] == kept[a];
          assert !SeenUrl(tasks, j, tasks[j].url);
        } else {
          assert d[a] == tasks[n] && !SeenUrl(tasks, n, tasks[n].url);
        }
      }
    }
  }

  /** The result is the input at the positions where a URL first occurs, in
      increasing order of position: idx lists those positions. */
  lemma {:induction false} DedupInOrder(tasks: seq<ProfileTask>) returns (idx: seq<nat>)
    ensures |idx| == |Dedup(tasks)|
    ensures forall a :: 0 <= a < |idx| ==>
              idx[a] < |tasks| && Dedup(tasks)[a] == tasks[idx[a]] && !SeenUrl(tasks, idx[a], tasks[idx[a]].url)
    ensures forall a, b :: 0 <= a < b < |idx| ==> idx[a] < idx[b]
    ensures forall j :: 0 <= j < |tasks| && !SeenUrl(tasks, j, tasks[j].url) ==> j in idx
    decreases |tasks|
  {
    if tasks == [] {
      idx := [];
    } else {
      var n := |tasks| - 1;
      var init := tasks[..n];
      var prev := DedupInOrder(init);
      var kept := Dedup(init);
      SeenInPrefix(tasks, n);
      if SeenUrl(tasks, n, tasks[n].url) {
        idx := prev;
        assert Dedup(tasks) == kept;
      } else {
        idx := prev + [n];
        assert Dedup(tasks) == kept + [tasks[n]];
        forall a | 0 <= a < |idx|
          ensures idx[a] < |tasks| && Dedup(tasks)[a] == tasks[idx[a]] && !SeenUrl(tasks, idx[a], tasks[idx[a]].url)
        {
          if a < |prev| {
            assert idx[a] == prev[a] && Dedup(tasks)[a] == kept[a];
          }
        }
        forall a, b | 0 <= a < b < |idx|
          ensures idx[a] < idx[b]
        {
          if b < |prev| {
            assert idx[a] == prev[a] && idx[b] == prev[b];
          } else {
            assert idx[a] == prev[a] < n;
          }
        }
      }
      forall j | 0 <= j < |tasks| && !SeenUrl(tasks, j, tasks[j].url)
        ensures j in idx
      {
        if j < n {
          assert j in prev;
        } else {
          assert idx[|idx| - 1] == n;
        }
      }
    }
  }

  /** Positions before n read the same in tasks and in its first n tasks. */
  lemma SeenInPrefix(tasks: seq<ProfileTask>, n: nat)
    requires n <= |tasks|
    ensures forall j :: 0 <= j < n ==> tasks[..n][j] == tasks[j]
    ensures forall j, u :: 0 <= j <= n ==> (SeenUrl(tasks, j, u) <==> SeenUrl(tasks[..n], j, u))
  {
    forall j, u | 0 <= j <= n
      ensures SeenUrl(tasks, j, u) <==> SeenUrl(tasks[..n], j, u)
    {
      if SeenUrl(tasks, j, u) {
        var j' :| 0 <= j' < j && tasks[j'].url == u;
        assert tasks[..n][j'] == tasks[j'];
      }
    }
  }

  /** The result holds no URL twice. */
  lemma {:induction false} DedupUnique(tasks: seq<ProfileTask>)
    ensures forall a, b :: 0 <= a < b < |Dedup(tasks)| ==> Dedup(tasks)[a].url != Dedup(tasks)[b].url
    decreases |tasks|
  {
    if tasks != [] {
      var n := |tasks| - 1;
      var init := tasks[..n];
      DedupUnique(init);
      DedupKeepsFirst(init);
      var kept := Dedup(init);
      if !SeenUrl(tasks, n, tasks[n].url) {
        forall a | 0 <= a < |kept|
          ensures kept[a].url != tasks[n].url
        {
          var j :| 0 <= j < |init| && init[j] == kept[a] && !SeenUrl(init, j, init[j].url);
          assert tasks[j] == init[j];
        }
      }
    }
  }

  /** Some task of `tasks` has this URL. */
  predicate HasUrl(tasks: seq<ProfileTask>, url: string) {
    SeenUrl(tasks, |tasks|, url)
  }

  /** Every input URL is kept. */
  lemma {:induction false} DedupComplete(tasks: seq<ProfileTask>)
    ensures forall j :: 0 <= j < |tasks| ==> HasUrl(Dedup(tasks), tasks[j].url)
    decreases |tasks|
  {
    if tasks != [] {
      var n := |tasks| - 1;
      var init := tasks[..n];
      DedupComplete(init);
      var kept := Dedup(init);
      var d := Dedup(tasks);
      assert d == kept || d == kept + [tasks[n]];
      assert forall a :: 0 <= a < |kept| ==> d[a] == kept[a];
      forall j | 0 <= j < |tasks|
        ensures HasUrl(d, tasks[j].url)
      {
        if j < n {
          assert tasks[j] == init[j];
          assert HasUrl(kept, init[j].url);
        } else if SeenUrl(tasks, n, tasks[n].url) {
          var j' :| 0 <= j' < n && tasks[j'].url == tasks[n].url;
          assert init[j'] == tasks[j'];
          assert HasUrl(kept, init[j'].url);
        } else {
          assert d == kept + [tasks[n]];
          assert d[|kept|] == tasks[n];
        }
      }
    }
  }

  /** What `if result: results.append(result)` appends for one outcome. */
  function SomeList<T>(o: Option<T>): seq<T> {
    if o.Some? then [o.value] else []
  }

  /** The values present, in order: the records a main loop appends to `results`. */
  function Somes<T>(os: seq<Option<T>>): seq<T>
    decreases |os|
  {
    if os == [] then []
    else
      var n := |os| - 1;
      Somes(os[..n]) + SomeList(os[n])
  }

  /** The records kept are exactly the outcomes that hold one. */
  lemma {:induction false} SomesAreOutcomes<T>(os: seq<Option<T>>)
    ensures forall x :: x in Somes(os) <==> Some(x) in os
    decreases |os|
  {
    if os != [] {
      var n := |os| - 1;
      SomesAreOutcomes(os[..n]);
      assert os == os[..n] + [os[n]];
    }
  }

  /** One more outcome extends the kept values by its value, if any. */
  lemma SomesExtend<T>(base: seq<T>, os: seq<Option<T>>, i: nat)
    requires i < |os|
    ensures base + Somes(os[..i]) + SomeList(os[i]) == base + Somes(os[..i + 1])
  {
    assert os[..i + 1][..i] == os[..i];
  }
}
