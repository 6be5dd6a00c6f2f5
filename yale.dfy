/** `get_department_urls` of yale_scrapper/yale.py without the request and
    the JSON decoding: the navigation items are given, and the loop keeps the
    department links among them as a map from link text to URL. */
module Yale {
  import opened Optional
  import opened PyStr

  /** A navigation item's `link` object; a key missing from it is `None`. */
  datatype Link = Link(text: Option<string>, url: Option<string>)

  /** A navigation item; `link` is `None` when the item has no such key. */
  datatype NavItem = NavItem(link: Option<Link>)

  /** The KeyError the loop raises, naming the missing key. */
  datatype KeyError = KeyError(key: string)

  const Marker := "/myysm/people/people-by-department/"

  /** An item the loop reads without raising. */
  predicate WellFormed(item: NavItem) {
    item.link.Some? && item.link.value.url.Some?
    && (Contains(item.link.value.url.value, Marker) ==> item.link.value.text.Some?)
  }

  /** A well-formed item that the filter keeps. */
  predicate Qualifies(item: NavItem) {
    item.link.Some? && item.link.value.url.Some? && item.link.value.text.Some?
    && Contains(item.link.value.url.value, Marker)
  }

  /** One step of the loop on the map built so far. */
  function Step(m: map<string, string>, item: NavItem): Result<map<string, string>, KeyError> {
    if item.link.None? then Err(KeyError("link"))
    else if item.link.value.url.None? then Err(KeyError("url"))
    else if !Contains(item.link.value.url.value, Marker) then Ok(m)
    else if item.link.value.text.None? then Err(KeyError("text"))
    else Ok(m[item.link.value.text.value := item.link.value.url.value])
  }

  /** The map the loop leaves after the items, or the first KeyError. */
  function DepartmentUrls(items: seq<NavItem>): Result<map<string, string>, KeyError>
    decreases |items|
  {
    if items == [] then Ok(map[])
    else
      var prior := DepartmentUrls(items[..|items| - 1]);
      if prior.Err? then prior else Step(prior.value, items[|items| - 1])
  }

  /** The loop. */
  method GetDepartmentUrls(items: seq<NavItem>) returns (r: Result<map<string, string>, KeyError>)
    ensures r == DepartmentUrls(items)
    ensures items == [] ==> r == Ok(map[])
  {
    var departmentUrls: map<string, string> := map[];
    var i := 0;
    while i < |items|
      invariant 0 <= i <= |items|
      invariant DepartmentUrls(items[..i]) == Ok(departmentUrls)
    {
      assert items[..i + 1][..i] == items[..i];
      var item := items[i];
      if item.link.None? {
        assert items[..i + 1] == items[..i] + [item];
        ErrSticks(items[..i + 1], items[i + 1..], KeyError("link"));
        assert items[..i + 1] + items[i + 1..] == items;
        return Err(KeyError("link"));
      }
      var link := item.link.value;
      if link.url.None? {
        ErrSticks(items[..i + 1], items[i + 1..], KeyError("url"));
        assert items[..i + 1] + items[i + 1..] == items;
        return Err(KeyError("url"));
      }
      if Contains(link.url.value, Marker) {
        if link.text.None? {
          ErrSticks(items[..i + 1], items[i + 1..], KeyError("text"));
          assert items[..i + 1] + items[i + 1..] == items;
          return Err(KeyError("text"));
        }
        departmentUrls := departmentUrls[link.text.value := link.url.value];
      }
      i := i + 1;
    }
    assert items[..i] == items;
    r := Ok(departmentUrls);
  }

  /** Once a KeyError is raised, later items change nothing. */
  lemma {:induction false} ErrSticks(front: seq<NavItem>, back: seq<NavItem>, e: KeyError)
    requires DepartmentUrls(front) == Err(e)
    ensures DepartmentUrls(front + back) == Err(e)
    decreases |back|
  {
    if back == [] {
      assert front + back == front;
    } else {
      var n := |back| - 1;
      ErrSticks(front, back[..n], e);
      assert (front + back)[..|front + back| - 1] == front + back[..n];
    }
  }

  /** The loop succeeds exactly when every item is well formed. */
  lemma {:induction false} OkIffWellFormed(items: seq<NavItem>)
    ensures DepartmentUrls(items).Ok? <==> forall i :: 0 <= i < |items| ==> WellFormed(items[i])
    decreases |items|
  {
    if items != [] {
      var init := items[..|items| - 1];
      OkIffWellFormed(init);
      assert forall i :: 0 <= i < |init| ==> init[i] == items[i];
    }
  }

  /** On success, a text is a key exactly when a kept item carries it, and its
      URL is the one of the last such item; so every URL holds the marker. */
  lemma {:induction false} KeysAreDepartmentLinks(items: seq<NavItem>, t: string)
    requires DepartmentUrls(items).Ok?
    ensures var m := DepartmentUrls(items).value;
      && (t in m <==> exists i :: 0 <= i < |items| && Qualifies(items[i]) && items[i].link.value.text.value == t)
      && (t in m ==> exists i :: LastKept(items, t, i) && m[t] == items[i].link.value.url.value)
    decreases |items|
  {
    if items != [] {
      var n := |items| - 1;
      var init := items[..n];
      assert DepartmentUrls(init).Ok?;
      KeysAreDepartmentLinks(init, t);
      assert forall i :: 0 <= i < n ==> init[i] == items[i];
      var m := DepartmentUrls(items).value;
      if Qualifies(items[n]) && items[n].link.value.text.value == t {
        assert LastKept(items, t, n);
      } else if t in m {
        var i :| LastKept(init, t, i) && DepartmentUrls(init).value[t] == init[i].link.value.url.value;
        assert LastKept(items, t, i);
      }
    }
  }

  /** Index i is the last kept item with text t. */
  ghost predicate LastKept(items: seq<NavItem>, t: string, i: int) {
    0 <= i < |items| && Qualifies(items[i]) && items[i].link.value.text.value == t
    && forall j :: i < j < |items| ==> !(Qualifies(items[j]) && items[j].link.value.text.value == t)
  }

  /** Every URL in a successful result contains the marker. */
  lemma ValuesHoldMarker(items: seq<NavItem>, t: string)
    requires DepartmentUrls(items).Ok? && t in DepartmentUrls(items).value
    ensures Contains(DepartmentUrls(items).value[t], Marker)
  {
    KeysAreDepartmentLinks(items, t);
  }

  /** A well-formed item the filter drops can be inserted anywhere without
      changing the result. */
  lemma {:induction false} DroppedItemIsIgnored(front: seq<NavItem>, item: NavItem, back: seq<NavItem>)
    requires WellFormed(item) && !Qualifies(item)
    ensures DepartmentUrls(front + [item] + back) == DepartmentUrls(front + back)
    decreases |back|
  {
    if back == [] {
      assert (front + [item])[..|front|] == front;
      assert front + [item] + [] == front + [item];
      assert front + [] == front;
    } else {
      var n := |back| - 1;
      DroppedItemIsIgnored(front, item, back[..n]);
      assert (front + [item] + back)[..|front| + 1 + n] == front + [item] + back[..n];
      assert (front + back)[..|front| + n] == front + back[..n];
    }
  }
}
