/** The list transformations of the link editor: how stored links are merged
    into the catalog rows, how one row's URL or enabled flag changes, and how
    the stored list is updated when a link is switched on or off. Every
    function here is a `find`, `findIndex`, `some`, `filter` or `map` of the
    editor, written out by recursion on the list. */
module LinkList {
  import opened Types

  /** `links.some(l => l.name === name)`. */
  function HasName(links: seq<SocialLink>, name: string): (found: bool)
    ensures found <==> exists i :: 0 <= i < |links| && links[i].name == name
  {
    if |links| == 0 then false
    else
      assert forall k :: 1 <= k < |links| ==> links[k] == links[1..][k - 1];
      links[0].name == name || HasName(links[1..], name)
  }

  /** No two entries share a name (the catalog of networks has this shape). */
  predicate DistinctNames(links: seq<SocialLink>)
  {
    forall i, j :: 0 <= i < j < |links| ==> links[i].name != links[j].name
  }

  /** Two lists with the same names, position by position. */
  predicate SameNames(a: seq<SocialLink>, b: seq<SocialLink>)
  {
    |a| == |b| && forall i :: 0 <= i < |a| ==> a[i].name == b[i].name
  }

  lemma SameNamesKeepDistinct(a: seq<SocialLink>, b: seq<SocialLink>)
    requires SameNames(a, b) && DistinctNames(a)
    ensures DistinctNames(b)
  {
  }

  /** `links.findIndex(l => l.name === name)`: the position of the first
      entry with that name, or -1 when there is none. */
  function FindIndex(links: seq<SocialLink>, name: string): (r: int)
    ensures -1 <= r < |links|
    ensures r == -1 <==> !HasName(links, name)
    ensures r != -1 ==> links[r].name == name
    ensures forall k :: 0 <= k < r ==> links[k].name != name
  {
    if |links| == 0 then -1
    else if links[0].name == name then 0
    else
      var r := FindIndex(links[1..], name);
      assert forall k :: 1 <= k < |links| ==> links[k] == links[1..][k - 1];
      if r == -1 then -1 else r + 1
  }

  /** `links.find(l => l.name === name)`: the first entry with that name. */
  function Find(links: seq<SocialLink>, name: string): (r: Option<SocialLink>)
    ensures r.None? <==> !HasName(links, name)
    ensures r.Some? ==> r.value.name == name && r.value in links
  {
    if |links| == 0 then None
    else if links[0].name == name then Some(links[0])
    else
      assert forall k :: 1 <= k < |links| ==> links[k] == links[1..][k - 1];
      Find(links[1..], name)
  }

  /** `find` returns the entry at the position `findIndex` reports. */
  lemma {:induction false} FindAtFindIndex(links: seq<SocialLink>, name: string)
    ensures Find(links, name) == if FindIndex(links, name) == -1 then None
                                 else Some(links[FindIndex(links, name)])
  {
    if |links| > 0 && links[0].name != name {
      FindAtFindIndex(links[1..], name);
    }
  }

  /** With distinct names, `find` returns THE entry of that name. */
  lemma FindUnique(links: seq<SocialLink>, name: string, i: int)
    requires DistinctNames(links)
    requires 0 <= i < |links| && links[i].name == name
    ensures Find(links, name) == Some(links[i])
  {
    FindAtFindIndex(links, name);
  }

  /** `links.filter(l => l.id).length`: the entries whose `id` is truthy,
      that is non-zero. */
  function CountRanked(links: seq<SocialLink>): (r: nat)
    ensures r <= |links|
    ensures r == 0 <==> forall i :: 0 <= i < |links| ==> links[i].id == 0
    ensures r == |links| <==> forall i :: 0 <= i < |links| ==> links[i].id != 0
  {
    if |links| == 0 then 0
    else
      assert forall k :: 1 <= k < |links| ==> links[k] == links[1..][k - 1];
      (if links[0].id != 0 then 1 else 0) + CountRanked(links[1..])
  }

  // ---------------------------------------------------------------------
  // The working copy: one row per catalog network.
  // ---------------------------------------------------------------------

  /** One catalog row after the mount effect: the first stored entry with
      its name lends it `url` and `enabled`. */
  function MergeRow(row: SocialLink, stored: seq<SocialLink>): (r: SocialLink)
    ensures var j := FindIndex(stored, row.name);
      r == if j == -1 then row else row.(url := stored[j].url, enabled := stored[j].enabled)
  {
    FindAtFindIndex(stored, row.name);
    match Find(stored, row.name)
    case Some(entry) => row.(url := entry.url, enabled := entry.enabled)
    case None => row
  }

  /** The mount effect's `devTreeLinks.map(...)`. */
  function MergeStored(rows: seq<SocialLink>, stored: seq<SocialLink>): (r: seq<SocialLink>)
    ensures SameNames(rows, r)
    ensures forall i :: 0 <= i < |rows| ==> r[i].id == rows[i].id
    ensures forall i :: 0 <= i < |rows| && !HasName(stored, rows[i].name) ==> r[i] == rows[i]
    ensures forall i :: 0 <= i < |rows| && HasName(stored, rows[i].name) ==>
              r[i].url == Find(stored, rows[i].name).value.url
              && r[i].enabled == Find(stored, rows[i].name).value.enabled
  {
    if |rows| == 0 then []
    else
      var rest := MergeStored(rows[1..], stored);
      assert forall k :: 1 <= k < |rows| ==> rows[k] == rows[1..][k - 1];
      [MergeRow(rows[0], stored)] + rest
  }

  /** An entry with no earlier namesake is the one `find` returns. */
  lemma FirstMatchIsFound(links: seq<SocialLink>, name: string, j: int)
    requires 0 <= j < |links| && links[j].name == name && !HasName(links[..j], name)
    ensures Find(links, name) == Some(links[j])
  {
    FindAtFindIndex(links, name);
  }

  /** A row whose name is stored takes `url` and `enabled` from the FIRST
      stored entry of that name, and keeps its name and `id`. */
  lemma MergeTakesFirstStoredEntry(rows: seq<SocialLink>, stored: seq<SocialLink>, i: int, j: int)
    requires 0 <= i < |rows| && 0 <= j < |stored|
    requires stored[j].name == rows[i].name && !HasName(stored[..j], rows[i].name)
    ensures var r := MergeStored(rows, stored);
            r[i] == rows[i].(url := stored[j].url, enabled := stored[j].enabled)
  {
    FirstMatchIsFound(stored, rows[i].name, j);
  }

  /** Running the merge a second time changes nothing. */
  lemma {:induction false} MergeStoredIdempotent(rows: seq<SocialLink>, stored: seq<SocialLink>)
    ensures MergeStored(MergeStored(rows, stored), stored) == MergeStored(rows, stored)
  {
    if |rows| > 0 {
      MergeStoredIdempotent(rows[1..], stored);
    }
  }

  /** `handleUrlChange`: the rows named `name` take the new URL. */
  function SetUrl(rows: seq<SocialLink>, name: string, url: string): (r: seq<SocialLink>)
    ensures SameNames(rows, r)
    ensures forall i :: 0 <= i < |rows| ==> r[i].enabled == rows[i].enabled && r[i].id == rows[i].id
    ensures forall i :: 0 <= i < |rows| ==> r[i].url == if rows[i].name == name then url else rows[i].url
  {
    if |rows| == 0 then []
    else
      var head := if rows[0].name == name then rows[0].(url := url) else rows[0];
      var rest := SetUrl(rows[1..], name, url);
      assert forall k :: 1 <= k < |rows| ==> rows[k] == rows[1..][k - 1];
      [head] + rest
  }

  /** Two edits of the same row: the second one wins. */
  lemma {:induction false} SetUrlLastWins(rows: seq<SocialLink>, name: string, first: string, second: string)
    ensures SetUrl(SetUrl(rows, name, first), name, second) == SetUrl(rows, name, second)
  {
    if |rows| > 0 {
      SetUrlLastWins(rows[1..], name, first, second);
    }
  }

  /** The first part of `handleEnableLink`: the rows named `name` flip
      `enabled`, but only when their URL passes `isValidUrl`. */
  function ToggleRows(rows: seq<SocialLink>, name: string, isValidUrl: string -> bool): (r: seq<SocialLink>)
    ensures SameNames(rows, r)
    ensures forall i :: 0 <= i < |rows| ==> r[i].url == rows[i].url && r[i].id == rows[i].id
    ensures forall i :: 0 <= i < |rows| ==>
              (r[i].enabled != rows[i].enabled <==> rows[i].name == name && isValidUrl(rows[i].url))
  {
    if |rows| == 0 then []
    else
      var head := if rows[0].name == name && isValidUrl(rows[0].url)
                  then rows[0].(enabled := !rows[0].enabled) else rows[0];
      var rest := ToggleRows(rows[1..], name, isValidUrl);
      assert forall k :: 1 <= k < |rows| ==> rows[k] == rows[1..][k - 1];
      [head] + rest
  }

  /** Whether `handleEnableLink` shows the invalid-URL notification: some row
      with that name has a URL that `isValidUrl` refuses. */
  function UrlRejected(rows: seq<SocialLink>, name: string, isValidUrl: string -> bool): (shown: bool)
    ensures shown <==> exists i :: 0 <= i < |rows| && rows[i].name == name && !isValidUrl(rows[i].url)
  {
    if |rows| == 0 then false
    else
      assert forall k :: 1 <= k < |rows| ==> rows[k] == rows[1..][k - 1];
      (rows[0].name == name && !isValidUrl(rows[0].url)) || UrlRejected(rows[1..], name, isValidUrl)
  }

  /** A refused URL leaves the working copy exactly as it was. */
  lemma InvalidUrlKeepsRows(rows: seq<SocialLink>, name: string, isValidUrl: string -> bool)
    requires forall i :: 0 <= i < |rows| && rows[i].name == name ==> !isValidUrl(rows[i].url)
    ensures ToggleRows(rows, name, isValidUrl) == rows
  {
    var r := ToggleRows(rows, name, isValidUrl);
    assert forall i :: 0 <= i < |rows| ==> r[i] == rows[i];
  }

  /** Switching the same row twice, with the same validity check, gives the
      rows back. */
  lemma {:induction false} ToggleTwiceRestores(rows: seq<SocialLink>, name: string, isValidUrl: string -> bool)
    ensures ToggleRows(ToggleRows(rows, name, isValidUrl), name, isValidUrl) == rows
  {
    if |rows| > 0 {
      ToggleTwiceRestores(rows[1..], name, isValidUrl);
    }
  }

  // ---------------------------------------------------------------------
  // The stored list: the links of the cached user.
  // ---------------------------------------------------------------------

  /** The enable path's `links.map(...)` for a name already stored. */
  function AssignRank(links: seq<SocialLink>, name: string, id: int): (r: seq<SocialLink>)
    ensures SameNames(links, r)
    ensures forall i :: 0 <= i < |links| && links[i].name != name ==> r[i] == links[i]
    ensures forall i :: 0 <= i < |links| && links[i].name == name ==>
              r[i].url == links[i].url && r[i].enabled && r[i].id == id
  {
    if |links| == 0 then []
    else
      var head := if links[0].name == name then links[0].(enabled := true, id := id) else links[0];
      var rest := AssignRank(links[1..], name, id);
      assert forall k :: 1 <= k < |links| ==> links[k] == links[1..][k - 1];
      [head] + rest
  }

  /** The guard of the decrement on the disable path, as written. Since
      `id == 1` and `id > indexToUpdate` leave only indexes below 1, and 0 is
      excluded, it fires only for id 1 and a negative index: when
      `findIndex` found no entry of the name. */
  function DecrementGuard(id: int, indexToUpdate: int): (fires: bool)
    ensures fires <==> id == 1 && indexToUpdate < 0
  {
    id > indexToUpdate && (indexToUpdate != 0 && id == 1)
  }

  /** The disable path's `links.map(...)`, with `indexToUpdate` computed once
      over the whole list before the map. */
  function ResetRank(links: seq<SocialLink>, name: string, indexToUpdate: int): (r: seq<SocialLink>)
    ensures SameNames(links, r)
    ensures forall i :: 0 <= i < |links| && links[i].name == name ==>
              r[i] == links[i].(id := 0, enabled := false)
    ensures forall i :: 0 <= i < |links| && links[i].name != name ==>
              r[i] == if DecrementGuard(links[i].id, indexToUpdate) then links[i].(id := links[i].id - 1) else links[i]
  {
    if |links| == 0 then []
    else
      var l := links[0];
      var head := if l.name == name then l.(id := 0, enabled := false)
                  else if DecrementGuard(l.id, indexToUpdate) then l.(id := l.id - 1)
                  else l;
      var rest := ResetRank(links[1..], name, indexToUpdate);
      assert forall k :: 1 <= k < |links| ==> links[k] == links[1..][k - 1];
      [head] + rest
  }

  /** The enable path: the new rank is one more than the number of ranked
      entries; a stored entry of that name is switched on with it, otherwise
      the selected row is appended with it. */
  function EnableStored(stored: seq<SocialLink>, name: string, selected: SocialLink): (r: seq<SocialLink>)
    ensures var id := CountRanked(stored) + 1;
      if HasName(stored, name) then
        SameNames(stored, r)
        && (forall i :: 0 <= i < |stored| && stored[i].name != name ==> r[i] == stored[i])
        && (forall i :: 0 <= i < |stored| && stored[i].name == name ==>
              r[i].url == stored[i].url && r[i].enabled && r[i].id == id)
      else
        |r| == |stored| + 1 && r[..|stored|] == stored
        && r[|stored|].name == selected.name && r[|stored|].url == selected.url
        && r[|stored|].enabled == selected.enabled && r[|stored|].id == id
  {
    var id := CountRanked(stored) + 1;
    if HasName(stored, name) then AssignRank(stored, name, id)
    else stored + [selected.(id := id)]
  }

  /** The disable path. The entries named `name` lose their rank and are
      switched off. The decrement of the source fires only when `name` is
      not stored at all, and then only turns rank 1 into rank 0. */
  function DisableStored(stored: seq<SocialLink>, name: string): (r: seq<SocialLink>)
    ensures SameNames(stored, r)
    ensures forall i :: 0 <= i < |stored| && stored[i].name == name ==>
              r[i] == stored[i].(id := 0, enabled := false)
    ensures forall i :: 0 <= i < |stored| && stored[i].name != name ==>
              r[i] == if !HasName(stored, name) && stored[i].id == 1 then stored[i].(id := 0) else stored[i]
  {
    ResetRank(stored, name, FindIndex(stored, name))
  }

  /** The stored list after `handleEnableLink`, given the rows after the
      toggle: the path is chosen by the toggled row's `enabled`; a name with
      no row takes the disable path. */
  function UpdateStored(toggled: seq<SocialLink>, stored: seq<SocialLink>, name: string): (r: seq<SocialLink>)
    ensures var i := FindIndex(toggled, name);
      r == if i != -1 && toggled[i].enabled then EnableStored(stored, name, toggled[i])
           else DisableStored(stored, name)
  {
    FindAtFindIndex(toggled, name);
    match Find(toggled, name)
    case Some(selected) =>
      if selected.enabled then EnableStored(stored, name, selected) else DisableStored(stored, name)
    case None => DisableStored(stored, name)
  }

  /** The working copy and the stored list, as one value. */
  datatype Editor = Editor(rows: seq<SocialLink>, stored: seq<SocialLink>)

  /** One `handleEnableLink(name)` on both lists. */
  function EnableLinkStep(e: Editor, name: string, isValidUrl: string -> bool): (r: Editor)
    ensures SameNames(e.rows, r.rows)
    ensures |r.stored| == |e.stored| || |r.stored| == |e.stored| + 1
  {
    var toggled := ToggleRows(e.rows, name, isValidUrl);
    Editor(toggled, UpdateStored(toggled, e.stored, name))
  }

  /** A refused toggle of a row that is already on still takes the enable
      path: the stored entry is re-ranked although nothing was switched. */
  lemma RefusedToggleStillReranks(e: Editor, name: string, isValidUrl: string -> bool, i: int)
    requires DistinctNames(e.rows)
    requires 0 <= i < |e.rows| && e.rows[i].name == name
    requires e.rows[i].enabled && !isValidUrl(e.rows[i].url)
    ensures EnableLinkStep(e, name, isValidUrl)
            == Editor(e.rows, EnableStored(e.stored, name, e.rows[i]))
  {
    InvalidUrlKeepsRows(e.rows, name, isValidUrl);
    FindUnique(e.rows, name, i);
  }

  /** A toggle whose URL is accepted flips exactly the named row, then
      switches the stored entry on (with the flipped row) or off. */
  lemma AcceptedToggleStep(e: Editor, name: string, isValidUrl: string -> bool, i: int)
    requires DistinctNames(e.rows)
    requires 0 <= i < |e.rows| && e.rows[i].name == name && isValidUrl(e.rows[i].url)
    ensures var row := e.rows[i].(enabled := !e.rows[i].enabled);
            EnableLinkStep(e, name, isValidUrl)
            == Editor(e.rows[i := row],
                      if row.enabled then EnableStored(e.stored, name, row) else DisableStored(e.stored, name))
  {
    var row := e.rows[i].(enabled := !e.rows[i].enabled);
    var toggled := ToggleRows(e.rows, name, isValidUrl);
    assert toggled == e.rows[i := row];
    SameNamesKeepDistinct(e.rows, toggled);
    FindUnique(toggled, name, i);
  }

  /** Ranks never go negative: each step writes `count + 1`, 0, or `1 - 1`. */
  lemma RanksStayNonNegative(e: Editor, name: string, isValidUrl: string -> bool)
    requires forall i :: 0 <= i < |e.stored| ==> e.stored[i].id >= 0
    ensures var r := EnableLinkStep(e, name, isValidUrl);
            forall i :: 0 <= i < |r.stored| ==> r.stored[i].id >= 0
  {
  }

  /** Neither path ever rewrites the URL of an entry that is already stored:
      the URL a link was first switched on with is the one the stored list
      keeps, whatever is typed into its row afterwards. */
  lemma StoredUrlsNeverChange(e: Editor, name: string, isValidUrl: string -> bool)
    ensures var r := EnableLinkStep(e, name, isValidUrl);
            |e.stored| <= |r.stored|
            && forall i :: 0 <= i < |e.stored| ==>
                 r.stored[i].name == e.stored[i].name && r.stored[i].url == e.stored[i].url
  {
  }

  // ---------------------------------------------------------------------
  // Two runs showing that ranks are neither unique nor tied to `enabled`.
  // ---------------------------------------------------------------------

  function Row(name: string, url: string): SocialLink
  {
    SocialLink(name, url, false, 0)
  }

  /** A URL check that accepts every non-empty text. Any check that accepts
      the three URLs below gives the same runs in RanksCanRepeat; the run of
      EnabledLinkCanLoseRank also needs the check to refuse the empty URL. */
  function NonEmptyUrl(url: string): bool
  {
    url != ""
  }

  const A := Row("A", "https://x.com/a")
  const B := Row("B", "https://x.com/b")
  const C := Row("C", "https://x.com/c")

  lemma SwitchOnA()
    ensures EnableLinkStep(Editor([A, B, C], []), "A", NonEmptyUrl)
            == Editor([A.(enabled := true), B, C], [A.(enabled := true, id := 1)])
  {
    AcceptedToggleStep(Editor([A, B, C], []), "A", NonEmptyUrl, 0);
    assert [A, B, C][0 := A.(enabled := true)] == [A.(enabled := true), B, C];
  }

  lemma SwitchOnB()
    ensures EnableLinkStep(Editor([A.(enabled := true), B, C], [A.(enabled := true, id := 1)]), "B", NonEmptyUrl)
            == Editor([A.(enabled := true), B.(enabled := true), C],
                      [A.(enabled := true, id := 1), B.(enabled := true, id := 2)])
  {
    var stored := [A.(enabled := true, id := 1)];
    AcceptedToggleStep(Editor([A.(enabled := true), B, C], stored), "B", NonEmptyUrl, 1);
    assert [A.(enabled := true), B, C][1 := B.(enabled := true)] == [A.(enabled := true), B.(enabled := true), C];
    assert !HasName(stored, "B");
    assert CountRanked(stored) == 1;
  }

  lemma SwitchOffA()
    ensures EnableLinkStep(Editor([A.(enabled := true), B.(enabled := true), C],
                                  [A.(enabled := true, id := 1), B.(enabled := true, id := 2)]), "A", NonEmptyUrl)
            == Editor([A, B.(enabled := true), C], [A, B.(enabled := true, id := 2)])
  {
    var stored := [A.(enabled := true, id := 1), B.(enabled := true, id := 2)];
    AcceptedToggleStep(Editor([A.(enabled := true), B.(enabled := true), C], stored), "A", NonEmptyUrl, 0);
    assert [A.(enabled := true), B.(enabled := true), C][0 := A] == [A, B.(enabled := true), C];
    assert stored[0].name == "A";
    var r := DisableStored(stored, "A");
    assert r[0] == A && r[1] == B.(enabled := true, id := 2);
  }

  lemma SwitchOnC()
    ensures EnableLinkStep(Editor([A, B.(enabled := true), C], [A, B.(enabled := true, id := 2)]), "C", NonEmptyUrl)
            == Editor([A, B.(enabled := true), C.(enabled := true)],
                      [A, B.(enabled := true, id := 2), C.(enabled := true, id := 2)])
  {
    var stored := [A, B.(enabled := true, id := 2)];
    AcceptedToggleStep(Editor([A, B.(enabled := true), C], stored), "C", NonEmptyUrl, 2);
    assert [A, B.(enabled := true), C][2 := C.(enabled := true)] == [A, B.(enabled := true), C.(enabled := true)];
    assert !HasName(stored, "C");
    assert CountRanked(stored) == 1;
  }

  /** Switch on A, switch on B, switch off A, switch on C: B and C end up
      both switched on with rank 2. */
  lemma RanksCanRepeat()
    ensures var e1 := EnableLinkStep(Editor([A, B, C], []), "A", NonEmptyUrl);
            var e2 := EnableLinkStep(e1, "B", NonEmptyUrl);
            var e3 := EnableLinkStep(e2, "A", NonEmptyUrl);
            var e4 := EnableLinkStep(e3, "C", NonEmptyUrl);
            |e4.stored| == 3
            && e4.stored[1].name == "B" && e4.stored[1].enabled && e4.stored[1].id == 2
            && e4.stored[2].name == "C" && e4.stored[2].enabled && e4.stored[2].id == 2
  {
    SwitchOnA();
    SwitchOnB();
    SwitchOffA();
    SwitchOnC();
  }

  /** Switch on A, then try to switch on B with an empty URL: the refused
      toggle takes the disable path for B, which is not stored, and the
      decrement strips A of its rank while A stays switched on. */
  lemma EnabledLinkCanLoseRank()
    ensures var e1 := EnableLinkStep(Editor([A, Row("B", "")], []), "A", NonEmptyUrl);
            var e2 := EnableLinkStep(e1, "B", NonEmptyUrl);
            e1.stored == [SocialLink("A", "https://x.com/a", true, 1)]
            && e2.stored == [SocialLink("A", "https://x.com/a", true, 0)]
  {
    var e0 := Editor([A, Row("B", "")], []);
    var rows := ToggleRows(e0.rows, "A", NonEmptyUrl);
    assert rows == [A.(enabled := true), Row("B", "")];
    FindUnique(rows, "A", 0);
    var e1 := Editor(rows, [A.(enabled := true, id := 1)]);
    assert EnableLinkStep(e0, "A", NonEmptyUrl) == e1;
    RefusedToggleOfUnstoredRow(e1);
  }

  lemma RefusedToggleOfUnstoredRow(e1: Editor)
    requires e1 == Editor([A.(enabled := true), Row("B", "")], [A.(enabled := true, id := 1)])
    ensures EnableLinkStep(e1, "B", NonEmptyUrl).stored == [A.(enabled := true, id := 0)]
  {
    InvalidUrlKeepsRows(e1.rows, "B", NonEmptyUrl);
    FindUnique(e1.rows, "B", 1);
    assert !HasName(e1.stored, "B");
  }
}
