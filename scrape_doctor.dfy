/** The browser-based scraper of health_info/scrape_doctor.py: its stand-alone
    `parse_address`, the name and address heuristics inlined in
    `scrape_profile`, the record it assembles, the retry loop around one
    profile and the main loop that collects the results. Each attempt's
    browser session is replaced by its outcome, a `Fetch`. */
module ScrapeDoctor {
  import opened Optional
  import opened PyStr
  import opened DoctorRecords

  const MaxRetries: nat := 2

  // ---------- parse_address ----------

  datatype Address = Address(street: string, city: string, postcode: string)

  /** `[line.strip() for line in raw if line.strip()]` */
  function NonBlankLines(raw: seq<string>): (lines: seq<string>)
    ensures |lines| <= |raw|
    ensures forall i :: 0 <= i < |lines| ==>
              lines[i] != [] && !IsSpace(lines[i][0]) && !IsSpace(lines[i][|lines[i]| - 1])
  {
    if raw == [] then []
    else
      var l := Strip(raw[0]);
      (if l != "" then [l] else []) + NonBlankLines(raw[1..])
  }

  /** The line filter works line by line: it distributes over concatenation
      ... */
  lemma {:induction false} NonBlankLinesAppend(a: seq<string>, b: seq<string>)
    ensures NonBlankLines(a + b) == NonBlankLines(a) + NonBlankLines(b)
    decreases |a|
  {
    if a == [] {
      assert a + b == b;
    } else {
      var ab := a + b;
      assert ab[0] == a[0] && ab[1..] == a[1..] + b;
      NonBlankLinesAppend(a[1..], b);
      var l := Strip(a[0]);
      assert NonBlankLines(ab) == (if l != "" then [l] else []) + (NonBlankLines(a[1..]) + NonBlankLines(b));
    }
  }

  /** ... and keeps one line, stripped, exactly when it is not blank. */
  lemma NonBlankLinesOne(line: string)
    ensures NonBlankLines([line]) == if Strip(line) != "" then [Strip(line)] else []
  {
    assert [line][1..] == [];
  }

  /** The stripped, non-blank lines of the address text. */
  function AddressLines(text: string): seq<string> {
    NonBlankLines(SplitOn(text, "\n"))
  }

  /** The body of `parse_address` once the lines are known. */
  function AddressFromLines(lines: seq<string>): (a: Address)
    ensures AllDigits(a.postcode) && |a.postcode| <= 5
  {
    if lines == [] then Address("", "", "")
    else if |lines| == 1 then Address(lines[0], "", "")
    else
      var last := lines[|lines| - 1];
      if ',' in last then
        var parts := RSplitOnce(last, ',');
        var postcode := Take(Digits(parts[1]), 5);
        FiveDigits(parts[1]);
        Address(lines[0], Strip(parts[0]), postcode)
      else
        var postcode := TakeLast(Digits(last), 5);
        FiveDigits(last);
        Address(lines[0], RStripChar(Strip(RemoveAll(last, postcode)), ','), postcode)
  }

  /** The first and the last five digits of a text are at most five digits. */
  lemma FiveDigits(s: string)
    ensures AllDigits(Take(Digits(s), 5)) && |Take(Digits(s), 5)| <= 5
    ensures AllDigits(TakeLast(Digits(s), 5)) && |TakeLast(Digits(s), 5)| <= 5
  {
    var d := Digits(s);
    var front := Take(d, 5);
    var back := TakeLast(d, 5);
    assert forall i :: 0 <= i < |front| ==> front[i] == d[i];
    assert forall i :: 0 <= i < |back| ==> back[i] == d[|d| - |back| + i];
  }

  /** `parse_address`, applied to the text that remains once the `<br>` tags
      are turned into newlines and the markup is removed. */
  function ParseAddress(text: string): (a: Address)
    ensures AllDigits(a.postcode) && |a.postcode| <= 5
  {
    if text == "" then Address("", "", "")
    else
      var lines := AddressLines(text);
      AddressFromLines(lines)
  }

  /** An empty address gives three empty fields; otherwise the street is the
      first non-blank line, city and postcode stay empty when there is no
      other line, and the lines between the first and the last are ignored. */
  lemma ParseAddressByLines(text: string)
    ensures var a := ParseAddress(text); var lines := AddressLines(text);
      && a == AddressFromLines(lines)
      && (lines == [] ==> a == Address("", "", ""))
      && (lines != [] ==> a.street == lines[0])
      && (|lines| == 1 ==> a.city == "" && a.postcode == "")
      && (|lines| >= 2 ==> a == AddressFromLines([lines[0], lines[|lines| - 1]]))
  {
    EmptyTextNoLines();
  }

  lemma EmptyTextNoLines()
    ensures AddressLines("") == []
  {
    assert SplitOn("", "\n") == [""];
    assert Strip("") == "";
  }

  /** When the last line has a comma, the city is the stripped text before
      its last comma and the postcode the first five digits after it. */
  lemma AddressComma(lines: seq<string>)
    requires |lines| >= 2 && ',' in lines[|lines| - 1]
    ensures var a := AddressFromLines(lines);
      exists before, after :: lines[|lines| - 1] == before + "," + after && ',' !in after
        && a.city == Strip(before) && a.postcode == Take(Digits(after), 5)
  {
    var parts := RSplitOnce(lines[|lines| - 1], ',');
    assert lines[|lines| - 1] == parts[0] + "," + parts[1];
  }

  /** Without a comma on the last line, the postcode is its last five digits
      and the city what is left of it with that postcode removed, stripped:
      the trailing `rstrip(',')` never has a comma to remove. */
  lemma AddressNoComma(lines: seq<string>)
    requires |lines| >= 2 && ',' !in lines[|lines| - 1]
    ensures var a := AddressFromLines(lines); var last := lines[|lines| - 1];
      a.postcode == TakeLast(Digits(last), 5) && a.city == Strip(RemoveAll(last, a.postcode))
  {
    var last := lines[|lines| - 1];
    RemoveAllKeepsAbsent(last, TakeLast(Digits(last), 5), ',');
  }

  // ---------- the name heading ----------

  datatype NameParts = NameParts(title: string, forename: Forename, surname: string)

  /** Lines 119-141 of `scrape_profile` on the stripped heading text t. */
  function ParseName(t: string): (r: NameParts)
    ensures r.forename.Text? <==> Contains(t, "  ")
    ensures !Contains(t, "  ") ==> r.surname == "" && |r.forename.pieces| >= 1
  {
    if Contains(t, "  ") then
      var nameText := SplitOn(ReplaceChar(t, ',', ' '), "  ");
      if |t| > 1 && |nameText| < 2 then
        // `name_text[1]` raises IndexError; the except keeps title and
        // surname empty and sets the forename to the heading text
        NameParts("", Text(t), "")
      else
        var title := if |t| > 1 then nameText[1] else "";
        var fullName := SplitWs(nameText[0]);
        var forename := if |fullName| > 1 then Join(" ", fullName[..|fullName| - 1]) else "";
        var surname := if |fullName| > 0 then fullName[|fullName| - 1] else "";
        NameParts(title, Text(forename), surname)
    else
      var nameTag := RSplitOnce(t, ',');
      // `name_tag[1]` raises IndexError when there is no comma; when there is
      // one, the next statement reads `name_text`, which this path never
      // binds, and raises. The except then sets the forename to the list.
      NameParts(if |nameTag| > 1 then nameTag[1] else "", Pieces(nameTag), "")
  }

  /** The heading text with commas made spaces, cut at every double space. */
  function NameChunks(t: string): seq<string> {
    SplitOn(ReplaceChar(t, ',', ' '), "  ")
  }

  /** With a double space the second chunk always exists: this branch never
      reaches its except. */
  lemma DoubleSpaceNeverRaises(t: string)
    requires Contains(t, "  ")
    ensures |t| > 1 && |NameChunks(t)| >= 2
  {
    ReplaceCharKeeps(t, "  ", ',', ' ');
    SplitOnCount(ReplaceChar(t, ',', ' '), "  ");
  }

  /** Double-space branch: the title is the second chunk, the surname the last
      word of the first chunk, and the forename the words before it joined by
      single spaces, so that splitting the forename again and adding the
      surname gives back every word of the first chunk; the forename is in
      that normal form (its words joined by single spaces, "" for none). */
  lemma DoubleSpaceName(t: string)
    requires Contains(t, "  ")
    ensures var r := ParseName(t); var words := SplitWs(NameChunks(t)[0]);
      && |NameChunks(t)| >= 2 && r.title == NameChunks(t)[1] && r.forename.Text?
      && (words == [] ==> r.forename.text == "" && r.surname == "")
      && (words != [] ==> SplitWs(r.forename.text) + [r.surname] == words)
      && Join(" ", SplitWs(r.forename.text)) == r.forename.text
  {
    DoubleSpaceNeverRaises(t);
    var words := SplitWs(NameChunks(t)[0]);
    if |words| > 1 {
      var front := words[..|words| - 1];
      SplitWsJoin(front);
      assert front + [words[|words| - 1]] == words;
    }
  }

  /** Branch without a double space: the surname stays empty, the title is the
      text after the last comma (empty without a comma), and the forename is
      the list `rsplit(',', 1)` returns, whose pieces joined by a comma give
      the heading back. */
  lemma CommaName(t: string)
    requires !Contains(t, "  ")
    ensures var r := ParseName(t);
      && r.surname == "" && r.forename.Pieces? && Join(",", r.forename.pieces) == t
      && (',' !in t ==> r.title == "" && r.forename.pieces == [t])
      && (',' in t ==> |r.forename.pieces| == 2 && r.title == r.forename.pieces[1] && ',' !in r.title)
  {
    var pieces := RSplitOnce(t, ',');
    if ',' in t {
      JoinCons(",", pieces[0], [pieces[1]]);
    }
  }

  // ---------- the practice address ----------

  /** Lines 145-169 of `scrape_profile` on the stripped "Practice Address"
      value. Each IndexError leaves the fields assigned so far. */
  function PracticeAddress(a: string): Address {
    if '\n' in a then
      ContainsChar(a, '\n');
      SplitOnCount(a, "\n");
      var addressNew := SplitOn(a, "\n");
      var cityStateInfo := SplitOn(addressNew[1], ",");
      if |cityStateInfo| < 2 then Address(addressNew[0], cityStateInfo[0], "")
      else
        var words := SplitOn(cityStateInfo[1], " ");
        if |words| < 2 then Address(addressNew[0], cityStateInfo[0], "")
        else Address(addressNew[0], cityStateInfo[0], words[1])
    else if ',' in a then
      // the scan for a space in the prefix compares an int with a str, so it
      // never sets street or city
      var addressNew := RSplitOnce(a, ',');
      var words := SplitOn(addressNew[1], " ");
      if |words| < 2 then Address("", "", "") else Address("", "", words[1])
    else Address("", "", "")
  }

  /** A Python value as far as the comparison `i == ' '` needs one. */
  datatype PyValue = PyInt(i: int) | PyStr(s: string)

  /** The statements themselves, with the scan loop over the prefix. */
  method ParsePracticeAddress(a: string) returns (addr: Address)
    ensures addr == PracticeAddress(a)
  {
    var street, city, pincode := "", "", "";
    if '\n' in a {
      ContainsChar(a, '\n');
      SplitOnCount(a, "\n");
      var addressNew := SplitOn(a, "\n");
      street := addressNew[0];
      var cityStateInfo := SplitOn(addressNew[1], ",");
      city := cityStateInfo[0];
      if |cityStateInfo| >= 2 {
        var words := SplitOn(cityStateInfo[1], " ");
        if |words| >= 2 {
          pincode := words[1];
        }
      }
    } else if ',' in a {
      var addressNew := RSplitOnce(a, ',');
      var words := SplitOn(addressNew[1], " ");
      if |words| >= 2 {
        pincode := words[1];
        var prefix := addressNew[0];
        var i := |prefix|;
        while i > 0
          invariant 0 <= i <= |prefix|
          invariant street == "" && city == ""
        {
          i := i - 1;
          var tail, head := prefix[i..], prefix[..i];
          if PyInt(i) == PyStr(" ") || PyInt(i) == PyStr("\n") {
            city, street := tail, head;
          }
        }
      }
    }
    addr := Address(street, city, pincode);
  }

  /** Newline branch: the street is the first line and the city the second
      line up to its first comma, so street, newline and city start the text;
      the postcode, when there is one, is a piece of the text after that comma
      that holds no space, comma or newline. */
  lemma NewlineAddress(a: string)
    requires '\n' in a
    ensures var r := PracticeAddress(a);
      && '\n' !in r.street && '\n' !in r.city && ',' !in r.city
      && r.street + "\n" + r.city <= a
      && ' ' !in r.postcode && ',' !in r.postcode && '\n' !in r.postcode
  {
    ContainsChar(a, '\n');
    SplitOnCount(a, "\n");
    var lines := SplitOn(a, "\n");
    PiecesFree(a, '\n');
    JoinSplitOn(a, "\n");
    JoinCons("\n", lines[0], lines[1..]);
    assert lines == [lines[0]] + lines[1..];
    var line2 := lines[1];
    JoinStartsWithFirst("\n", lines[1..]);
    var csi := SplitOn(line2, ",");
    PiecesFree(line2, ',');
    JoinSplitOn(line2, ",");
    JoinStartsWithFirst(",", csi);
    assert lines[0] + "\n" + csi[0] <= a by {
      assert a == lines[0] + "\n" + Join("\n", lines[1..]);
      assert csi[0] <= Join("\n", lines[1..]);
    }
    if |csi| >= 2 {
      var words := SplitOn(csi[1], " ");
      PiecesFree(csi[1], ' ');
      PieceChars(line2, ',', 1);
      PieceChars(a, '\n', 1);
      if |words| >= 2 {
        PieceChars(csi[1], ' ', 1);
      }
    }
  }

  /** The comma-only branch leaves street and city empty; with neither a
      newline nor a comma all three fields are empty. */
  lemma CommaOnlyAddress(a: string)
    requires '\n' !in a
    ensures PracticeAddress(a).street == "" && PracticeAddress(a).city == ""
    ensures ',' !in a ==> PracticeAddress(a) == Address("", "", "")
  {
  }

  /** Newline branch in full: the street is the text before the first
      newline, and the city the text after it up to the first comma or
      newline that follows (or to the end). */
  lemma NewlineStreetCity(a: string, street: string, city: string, rest: string)
    requires a == street + "\n" + city + rest
    requires '\n' !in street && '\n' !in city && ',' !in city
    requires rest == "" || rest[0] == ',' || rest[0] == '\n'
    ensures PracticeAddress(a).street == street && PracticeAddress(a).city == city
  {
    var p, tail := CutAtFirst(rest, '\n');
    var line2 := city + p;
    assert a == street + "\n" + line2 + tail;
    NewlineLine2(a, street, line2, tail);
    if p != "" {
      assert p[0] == rest[0];
    }
    FirstPieceIs(city, p, ',');
  }

  /** Without a comma on the second line the postcode stays empty. */
  lemma NewlineNoCommaPostcode(a: string, street: string, line2: string, rest: string)
    requires a == street + "\n" + line2 + rest
    requires '\n' !in street && '\n' !in line2 && ',' !in line2
    requires rest == "" || rest[0] == '\n'
    ensures PracticeAddress(a).postcode == ""
  {
    NewlineLine2(a, street, line2, rest);
    SplitOnAbsent(line2, ',');
  }

  /** With a comma on the second line, the postcode comes from the segment
      between that comma and the next comma or newline (or the end): it is
      the text between the segment's first and second spaces ... */
  lemma NewlineCommaPostcode(a: string, street: string, city: string,
                             pre: string, pc: string, post: string, rest: string)
    requires a == street + "\n" + city + "," + pre + " " + pc + post + rest
    requires '\n' !in street && '\n' !in city && ',' !in city
    requires '\n' !in pre + pc + post && ',' !in pre + pc + post
    requires ' ' !in pre && ' ' !in pc && (post == "" || post[0] == ' ')
    requires rest == "" || rest[0] == ',' || rest[0] == '\n'
    ensures PracticeAddress(a).postcode == pc
  {
    var seg := pre + " " + pc + post;
    assert a == street + "\n" + city + "," + seg + rest;
    var csi := NewlineSegment(a, street, city, seg, rest);
    SecondSpacePiece(pre, pc, post);
  }

  /** The second piece of `split(' ')` lies between the first two spaces. */
  lemma SecondSpacePiece(pre: string, pc: string, post: string)
    requires ' ' !in pre && ' ' !in pc && (post == "" || post[0] == ' ')
    ensures var w := SplitOn(pre + " " + pc + post, " "); |w| >= 2 && w[1] == pc
  {
    assert pre + " " + pc + post == pre + [' '] + (pc + post);
    SplitOnFirst(pre, ' ', pc + post);
    FirstPieceIs(pc, post, ' ');
  }

  /** ... and empty when the segment holds no space. */
  lemma NewlineCommaNoSpace(a: string, street: string, city: string, seg: string, rest: string)
    requires a == street + "\n" + city + "," + seg + rest
    requires '\n' !in street && '\n' !in city && ',' !in city
    requires '\n' !in seg && ',' !in seg && ' ' !in seg
    requires rest == "" || rest[0] == ',' || rest[0] == '\n'
    ensures PracticeAddress(a).postcode == ""
  {
    var csi := NewlineSegment(a, street, city, seg, rest);
    SplitOnAbsent(seg, ' ');
  }

  /** Comma-only branch in full: the postcode is the text between the first
      and second spaces after the last comma ... */
  lemma CommaOnlyPostcode(a: string, before: string, pre: string, pc: string, post: string)
    requires '\n' !in a && a == before + "," + pre + " " + pc + post
    requires ',' !in pre + pc + post
    requires ' ' !in pre && ' ' !in pc && (post == "" || post[0] == ' ')
    ensures PracticeAddress(a) == Address("", "", pc)
  {
    var after := pre + " " + pc + post;
    assert a == before + [','] + after;
    assert ',' !in after;
    RSplitOnceAt(before, ',', after);
    SecondSpacePiece(pre, pc, post);
  }

  /** ... and all three fields are empty when that text holds no space. */
  lemma CommaOnlyNoSpace(a: string, before: string, after: string)
    requires '\n' !in a && a == before + "," + after
    requires ',' !in after && ' ' !in after
    ensures PracticeAddress(a) == Address("", "", "")
  {
    assert a == before + [','] + after;
    RSplitOnceAt(before, ',', after);
    SplitOnAbsent(after, ' ');
  }

  /** The second line of the newline branch. */
  lemma NewlineLine2(a: string, street: string, line2: string, rest: string)
    requires a == street + "\n" + line2 + rest
    requires '\n' !in street && '\n' !in line2 && (rest == "" || rest[0] == '\n')
    ensures '\n' in a
    ensures |SplitOn(a, "\n")| >= 2 && SplitOn(a, "\n")[0] == street && SplitOn(a, "\n")[1] == line2
  {
    assert a == street + ['\n'] + (line2 + rest);
    assert a[|street|] == '\n';
    SplitOnFirst(street, '\n', line2 + rest);
    FirstPieceIs(line2, rest, '\n');
  }

  /** The comma pieces of the second line when it is city, a comma and the
      segment seg, up to the next comma or newline. */
  lemma NewlineSegment(a: string, street: string, city: string, seg: string, rest: string)
      returns (csi: seq<string>)
    requires a == street + "\n" + city + "," + seg + rest
    requires '\n' !in street && '\n' !in city && ',' !in city && '\n' !in seg && ',' !in seg
    requires rest == "" || rest[0] == ',' || rest[0] == '\n'
    ensures '\n' in a && |SplitOn(a, "\n")| >= 2
    ensures csi == SplitOn(SplitOn(a, "\n")[1], ",") && |csi| >= 2 && csi[1] == seg
  {
    var p, tail := CutAtFirst(rest, '\n');
    var line2 := city + "," + seg + p;
    assert a == street + "\n" + line2 + tail;
    NewlineLine2(a, street, line2, tail);
    if p != "" {
      assert p[0] == rest[0];
    }
    assert line2 == city + [','] + (seg + p);
    SplitOnFirst(city, ',', seg + p);
    FirstPieceIs(seg, p, ',');
    csi := SplitOn(line2, ",");
  }

  /** A text cut at its first c (or at its end when it has none). */
  lemma {:induction false} CutAtFirst(s: string, c: char) returns (p: string, tail: string)
    ensures s == p + tail && c !in p && (tail == [] || tail[0] == c)
    decreases |s|
  {
    if s == [] || s[0] == c {
      p, tail := [], s;
    } else {
      var p', tail' := CutAtFirst(s[1..], c);
      p, tail := [s[0]] + p', tail';
    }
  }

  /** The postcode is the second space-separated piece after the comma, so for
      "street\ncity, ST 12345" it is the state abbreviation ST. */
  lemma PostcodeIsSecondPiece(street: string, city: string, st: string, zip: string)
    requires '\n' !in street && '\n' !in city && ',' !in city
    requires ' ' !in st && '\n' !in st && ',' !in st && '\n' !in zip && ',' !in zip
    ensures PracticeAddress(street + "\n" + city + ", " + st + " " + zip).postcode == st
  {
    var seg := " " + st + " " + zip;
    var line2 := city + "," + seg;
    var a := street + "\n" + line2;
    assert a == street + "\n" + city + ", " + st + " " + zip;
    assert '\n' !in seg;
    assert '\n' !in line2;
    assert ',' !in seg;
    SplitTwo(street, '\n', line2);
    SplitTwo(city, ',', seg);
    SecondWord(st, zip);
    assert a[|street|] == '\n';
    NewlinePostcode(a, street, line2, city, seg);
  }

  lemma SecondWord(st: string, zip: string)
    requires ' ' !in st
    ensures |SplitOn(" " + st + " " + zip, " ")| >= 2 && SplitOn(" " + st + " " + zip, " ")[1] == st
  {
    var y := st + " " + zip;
    SplitOnFirst([], ' ', y);
    assert " " + st + " " + zip == [] + [' '] + y;
    SplitOnFirst(st, ' ', zip);
  }

  /** The newline branch once its three splits are known. */
  lemma NewlinePostcode(a: string, street: string, line2: string, city: string, seg: string)
    requires '\n' in a && SplitOn(a, "\n") == [street, line2] && SplitOn(line2, ",") == [city, seg]
    requires |SplitOn(seg, " ")| >= 2
    ensures PracticeAddress(a).postcode == SplitOn(seg, " ")[1]
  {
  }

  /** A string with one occurrence of c splits into the parts around it. */
  lemma SplitTwo(x: string, c: char, y: string)
    requires c !in x && c !in y
    ensures SplitOn(x + [c] + y, [c]) == [x, y]
  {
    SplitOnFirst(x, c, y);
    SplitOnAbsent(y, c);
  }

  // ---------- helpers about pieces ----------

  /** No piece of `s.split(c)` holds c. */
  lemma {:induction false} PiecesFree(s: string, c: char)
    ensures forall k :: 0 <= k < |SplitOn(s, [c])| ==> c !in SplitOn(s, [c])[k]
    decreases |s|
  {
    if |s| >= 1 {
      PiecesFree(s[1..], c);
      if s[..1] != [c] {
        assert s[0] != c;
      }
    }
  }

  /** Every character of a piece of `s.split(c)` occurs in s. */
  lemma {:induction false} PieceChars(s: string, c: char, k: nat)
    requires k < |SplitOn(s, [c])|
    ensures forall x :: x in SplitOn(s, [c])[k] ==> x in s
    decreases |s|
  {
    if |s| >= 1 {
      if s[..1] == [c] {
        if k > 0 { PieceChars(s[1..], c, k - 1); }
      } else {
        PieceChars(s[1..], c, k);
      }
    }
  }

  /** A join starts with its first piece. */
  lemma JoinStartsWithFirst(sep: string, parts: seq<string>)
    requires |parts| >= 1
    ensures parts[0] <= Join(sep, parts)
  {
  }

  // ---------- the record ----------

  /** The dict built at lines 172-201: copies of the field map, of the parsed
      name and address and of the task, and fixed empty columns. */
  function Record(task: ProfileTask, data: map<string, string>, name: NameParts, addr: Address): DoctorRecord {
    DoctorRecord(
      name.title, name.forename, name.surname, Some(Get(data, "Practice Address")),
      Get(data, "Practice Name"), Get(data, "Specialty"), addr.street, addr.city,
      task.state, addr.postcode, Country, Get(data, "Specialty"),
      "", Get(data, "Phone"), "", "",
      "", "", "", "",
      "", "", "", "",
      Get(data, "Practice Name"), Get(data, "Website"), task.url)
  }

  /** What one browser session yields: a failure anywhere in creating the
      browser, loading the URL or waiting for the data cells, or the page. */
  datatype Fetch = FetchFailed | Loaded(page: Page)

  /** One pass of the `try` block of the retry loop: `None` stands for an
      exception escaping it (the failed fetch, or the ValueError raised when the
      page has no heading). */
  function Attempt(task: ProfileTask, f: Fetch): Option<DoctorRecord> {
    match f
    case FetchFailed => None
    case Loaded(page) =>
      if page.heading.None? then None
      else
        var data := FieldMapOf(page.rows);
        Some(Record(task, data, ParseName(page.heading.value),
                    PracticeAddress(Strip(Get(data, "Practice Address")))))
  }

  /** The statements of that pass, with the field-map loop and the address scan. */
  method RunAttempt(task: ProfileTask, f: Fetch) returns (r: Option<DoctorRecord>)
    ensures r == Attempt(task, f)
  {
    if f.FetchFailed? {
      return None;
    }
    var data := BuildFieldMap(f.page.rows);
    if f.page.heading.None? {
      return None;
    }
    var name := ParseName(f.page.heading.value);
    var addr := ParsePracticeAddress(Strip(Get(data, "Practice Address")));
    r := Some(Record(task, data, name, addr));
  }

  /** An attempt fails exactly when the fetch fails or the page has no
      heading. A successful one copies the task's state and URL, always says
      "United States", repeats the practice name as workplace and the specialty
      as department, reads every label as the last paired row carrying it (""
      when none does), and takes its name and address from the two parsers. */
  lemma AttemptRecord(task: ProfileTask, f: Fetch)
    ensures Attempt(task, f).Some? <==> f.Loaded? && f.page.heading.Some?
    ensures Attempt(task, f).Some? ==>
      var r := Attempt(task, f).value; var rows := f.page.rows;
      var name := ParseName(f.page.heading.value);
      && r.title == name.title && r.forename == name.forename && r.surname == name.surname
      && r.state == task.state && r.sourceResultUrl == task.url && r.country == "United States"
      && r.institution == r.workplace == LastValue(rows, "Practice Name")
      && r.department == r.specialty == LastValue(rows, "Specialty")
      && r.tel1 == LastValue(rows, "Phone") && r.website == LastValue(rows, "Website")
      && r.fullAddress == Some(LastValue(rows, "Practice Address"))
      && Address(r.street, r.city, r.postcode) == PracticeAddress(Strip(LastValue(rows, "Practice Address")))
      && r.regNumber == r.tel2 == r.tel3 == r.fax1 == r.fax2 == r.fax3 == ""
      && r.mobile == r.email1 == r.email2 == r.language == r.gender == ""
  {
    if f.Loaded? {
      var rows := f.page.rows;
      GetIsLastValue(rows, "Practice Name");
      GetIsLastValue(rows, "Specialty");
      GetIsLastValue(rows, "Phone");
      GetIsLastValue(rows, "Website");
      GetIsLastValue(rows, "Practice Address");
    }
  }

  // ---------- the retry loop ----------

  /** The outcome of attempt k for a task: the behaviour of the site and of
      the browser, which the model takes as given. */
  type Oracle = (ProfileTask, nat) -> Fetch

  /** The first entry from k on that holds a value, with its index. */
  function FirstSome<T>(os: seq<Option<T>>, k: nat): (r: Option<(nat, T)>)
    requires k <= |os|
    ensures r.Some? ==> k <= r.value.0 < |os| && os[r.value.0] == Some(r.value.1)
    ensures r.Some? ==> forall j :: k <= j < r.value.0 ==> os[j].None?
    ensures r.None? <==> forall j :: k <= j < |os| ==> os[j].None?
    decreases |os| - k
  {
    if k == |os| then None
    else if os[k].Some? then Some((k, os[k].value))
    else FirstSome(os, k + 1)
  }

  /** What each of the MaxRetries attempts would yield. */
  function Attempts(task: ProfileTask, fetch: Oracle): (os: seq<Option<DoctorRecord>>)
    ensures |os| == MaxRetries
    ensures forall j :: 0 <= j < MaxRetries ==> os[j] == Attempt(task, fetch(task, j))
  {
    seq(MaxRetries, j requires 0 <= j => Attempt(task, fetch(task, j)))
  }

  /** The first successful attempt of a task, with its index. */
  function FirstSuccess(task: ProfileTask, fetch: Oracle): Option<(nat, DoctorRecord)> {
    FirstSome(Attempts(task, fetch), 0)
  }

  /** `scrape_profile`'s return value. */
  function Outcome(task: ProfileTask, fetch: Oracle): Option<DoctorRecord> {
    var s := FirstSuccess(task, fetch);
    if s.Some? then Some(s.value.1) else None
  }

  /** A task yields `None` exactly when every attempt fails; otherwise it
      yields the record of the first attempt that succeeds. */
  lemma OutcomeIsFirstSuccess(task: ProfileTask, fetch: Oracle)
    ensures Outcome(task, fetch).None? <==> forall j :: 0 <= j < MaxRetries ==> Attempt(task, fetch(task, j)).None?
    ensures Outcome(task, fetch).Some? ==>
      exists k :: 0 <= k < MaxRetries && Attempt(task, fetch(task, k)) == Outcome(task, fetch)
        && forall j :: 0 <= j < k ==> Attempt(task, fetch(task, j)).None?
  {
    var os := Attempts(task, fetch);
    var s := FirstSome(os, 0);
    if s.Some? {
      var k := s.value.0;
      assert Attempt(task, fetch(task, k)) == os[k];
    }
  }

  /** The pauses and attempts of one call, in order. */
  datatype Step = Politeness | Try(attempt: nat) | Backoff

  /** The steps of a call that made n attempts: the politeness delay, the
      first attempt, and a backoff before each further attempt. */
  function StepsOf(n: nat): seq<Step>
    requires n >= 1
  {
    if n == 1 then [Politeness, Try(0)] else StepsOf(n - 1) + [Backoff, Try(n - 1)]
  }

  /** In a call's steps the politeness delay comes once, first; the attempts
      are numbered 0, 1, ... in order; and every backoff sits between two
      consecutive attempts. */
  lemma {:induction false} StepsShape(n: nat)
    requires n >= 1
    ensures |StepsOf(n)| == 2 * n && StepsOf(n)[0] == Politeness
    ensures forall i :: 0 < i < |StepsOf(n)| ==> StepsOf(n)[i] != Politeness
    ensures forall i :: 0 <= i < |StepsOf(n)| && i % 2 == 1 ==> StepsOf(n)[i] == Try(i / 2)
    ensures forall i :: 0 < i < |StepsOf(n)| && i % 2 == 0 ==> StepsOf(n)[i] == Backoff
  {
    if n > 1 {
      StepsShape(n - 1);
      var p := StepsOf(n - 1);
      assert StepsOf(n) == p + [Backoff, Try(n - 1)];
      assert forall i :: 0 <= i < |p| ==> StepsOf(n)[i] == p[i];
    }
  }

  /** The scraper's global lists. */
  class Scraper {
    var results: seq<DoctorRecord>
    var errors: seq<ScrapeError>

    constructor()
      ensures results == [] && errors == []
    {
      results := [];
      errors := [];
    }

    /** `scrape_profile`: up to MaxRetries attempts, stopping at the first
        that yields a record; when none does, one error naming the task is
        appended and `None` returned. `steps` records the pauses and the
        attempts made. */
    method ScrapeProfile(task: ProfileTask, fetch: Oracle) returns (r: Option<DoctorRecord>, steps: seq<Step>)
      modifies this
      ensures r == Outcome(task, fetch)
      ensures results == old(results)
      ensures r.Some? ==> errors == old(errors)
      ensures r.None? ==> errors == old(errors) + [ScrapeError(task.url, task.state)]
      ensures var s := FirstSuccess(task, fetch);
        steps == StepsOf(if s.Some? then s.value.0 + 1 else MaxRetries)
    {
      steps := [Politeness];
      var attempt: nat := 0;
      while attempt < MaxRetries
        invariant attempt <= MaxRetries
        invariant FirstSuccess(task, fetch) == FirstSome(Attempts(task, fetch), attempt)
        invariant attempt == 0 ==> steps == [Politeness]
        invariant 0 < attempt < MaxRetries ==> steps == StepsOf(attempt) + [Backoff]
        invariant attempt == MaxRetries ==> steps == StepsOf(attempt)
        invariant results == old(results) && errors == old(errors)
      {
        steps := steps + [Try(attempt)];
        assert steps == StepsOf(attempt + 1);
        var outcome := RunAttempt(task, fetch(task, attempt));
        if outcome.Some? {
          return outcome, steps;
        }
        if attempt < MaxRetries - 1 {
          steps := steps + [Backoff];
        }
        attempt := attempt + 1;
      }
      errors := errors + [ScrapeError(task.url, task.state)];
      r := None;
    }
  
    /** One task of the main block: scrape it and keep its record, if any. */
    method Collect(task: ProfileTask, fetch: Oracle, ghost o: Option<DoctorRecord>)
      requires o == Outcome(task, fetch)
      modifies this
      ensures results == old(results) + SomeList(o)
      ensures errors == old(errors) + ErrorList(task, o)
    {
      var r, _ := ScrapeProfile(task, fetch);
      if r.Some? {
        results := results + [r.value];
      }
    }

    /** The main block, run one task after another: the rows are
        de-duplicated by URL, every task is scraped, its record kept when
        there is one, and a pause taken after every tenth task. */
    method Run(rows: seq<ProfileTask>, fetch: Oracle) returns (pauses: nat)
      modifies this
      ensures results == old(results) + Somes(Outcomes(Dedup(rows), fetch))
      ensures errors == old(errors) + Failed(Dedup(rows), Outcomes(Dedup(rows), fetch))
      ensures pauses == |Dedup(rows)| / 10
    {
      pauses := RunTasks(Dedup(rows), fetch);
    }

    /** The loop over the de-duplicated tasks. */
    method RunTasks(tasks: seq<ProfileTask>, fetch: Oracle) returns (pauses: nat)
      modifies this
      ensures results == old(results) + Somes(Outcomes(tasks, fetch))
      ensures errors == old(errors) + Failed(tasks, Outcomes(tasks, fetch))
      ensures pauses == |tasks| / 10
    {
      ghost var os := Outcomes(tasks, fetch);
      pauses := 0;
      var i := 0;
      while i < |tasks|
        invariant 0 <= i <= |tasks|
        invariant results == old(results) + Somes(os[..i])
        invariant errors == old(errors) + Failed(tasks[..i], os[..i])
        invariant pauses == i / 10
      {
        SomesExtend(old(results), os, i);
        FailedExtend(old(errors), tasks, os, i);
        Collect(tasks[i], fetch, os[i]);
        i := i + 1;
        pauses := CountPause(i, pauses);
      }
      assert tasks[..i] == tasks;
      assert os[..i] == os;
    }
  }

  /** `if i % 10 == 0`: the pause after every tenth processed task. */
  method CountPause(i: nat, pauses: nat) returns (p: nat)
    requires i >= 1 && pauses == (i - 1) / 10
    ensures p == i / 10
  {
    p := pauses;
    if i % 10 == 0 {
      p := p + 1;
    }
  }

  /** The outcome of every task. */
  function Outcomes(tasks: seq<ProfileTask>, fetch: Oracle): (os: seq<Option<DoctorRecord>>)
    ensures |os| == |tasks|
    ensures forall j :: 0 <= j < |tasks| ==> os[j] == Outcome(tasks[j], fetch)
  {
    seq(|tasks|, j requires 0 <= j < |tasks| => Outcome(tasks[j], fetch))
  }

  /** What `scrape_profile` appends to `errors` for a task with this outcome. */
  function ErrorList<T>(task: ProfileTask, o: Option<T>): seq<ScrapeError> {
    if o.None? then [ScrapeError(task.url, task.state)] else []
  }

  /** One error per task whose outcome is `None`, in task order. */
  function Failed<T>(tasks: seq<ProfileTask>, os: seq<Option<T>>): seq<ScrapeError>
    requires |os| == |tasks|
    decreases |tasks|
  {
    if tasks == [] then []
    else
      var n := |tasks| - 1;
      Failed(tasks[..n], os[..n]) + ErrorList(tasks[n], os[n])
  }

  /** One more task extends the errors by its error, if it failed. */
  lemma FailedExtend<T>(base: seq<ScrapeError>, tasks: seq<ProfileTask>, os: seq<Option<T>>, i: nat)
    requires |os| == |tasks| && i < |tasks|
    ensures base + Failed(tasks[..i], os[..i]) + ErrorList(tasks[i], os[i]) == base + Failed(tasks[..i + 1], os[..i + 1])
  {
    assert tasks[..i + 1][..i] == tasks[..i];
    assert os[..i + 1][..i] == os[..i];
  }

  /** Every task ends as exactly one record or exactly one error. */
  lemma {:induction false} RecordsPlusErrors<T>(tasks: seq<ProfileTask>, os: seq<Option<T>>)
    requires |os| == |tasks|
    ensures |Somes(os)| + |Failed(tasks, os)| == |tasks|
    decreases |tasks|
  {
    if tasks != [] {
      var n := |tasks| - 1;
      RecordsPlusErrors(tasks[..n], os[..n]);
    }
  }

  /** Each error names a task whose outcome is `None`, and each such task has
      its error. */
  lemma {:induction false} FailedAreFailedTasks<T>(tasks: seq<ProfileTask>, os: seq<Option<T>>)
    requires |os| == |tasks|
    ensures forall e :: e in Failed(tasks, os) <==>
              exists j :: 0 <= j < |tasks| && e == ScrapeError(tasks[j].url, tasks[j].state) && os[j].None?
    decreases |tasks|
  {
    if tasks != [] {
      var n := |tasks| - 1;
      FailedAreFailedTasks(tasks[..n], os[..n]);
      assert forall j :: 0 <= j < n ==> tasks[..n][j] == tasks[j] && os[..n][j] == os[j];
    }
  }
}
