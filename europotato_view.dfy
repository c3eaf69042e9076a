/**
 * The two loops of the Europotato detail-page handler that turn already-parsed
 * page elements into JSON values: the grouping of a characteristics table's
 * rows under their labels, and the header/value rule of the breed-information
 * block. Each table row is given as whether it holds a header cell and the
 * texts of its data cells; each breed-information `div` as its spans, each
 * span as its text and the texts of its links.
 */
module EuropotatoView {
  import opened Wrappers
  import opened Dicts
  import opened Text

  /** The `ValueError` raised when a row or `div` does not unpack into exactly two cells or spans. */
  datatype UnpackError = ValueError(got: nat)

  // ---------------------------------------------------------------------------
  // Characteristics tables
  // ---------------------------------------------------------------------------

  datatype TableRow = TableRow(hasHeaderCell: bool, cells: seq<string>)

  /** A row the loop unpacks: one without a header cell. */
  predicate Unpacked(row: TableRow)
  {
    !row.hasHeaderCell
  }

  /** A row the loop unpacks that does not hold exactly the two cells `left, right`. */
  predicate BadRow(row: TableRow)
  {
    Unpacked(row) && |row.cells| != 2
  }

  predicate Malformed(rows: seq<TableRow>)
  {
    exists i :: 0 <= i < |rows| && BadRow(rows[i])
  }

  /** `rows[i]` is the row whose unpacking raises. */
  predicate FirstMalformed(rows: seq<TableRow>, i: nat)
  {
    i < |rows| && BadRow(rows[i]) && !Malformed(rows[..i])
  }

  /** The (left, right) texts of the data rows, in order; header rows are skipped. */
  function Data(rows: seq<TableRow>): seq<(string, string)>
    decreases |rows|
  {
    if rows == [] then []
    else
      var row := rows[|rows| - 1];
      Data(rows[..|rows| - 1]) + if Unpacked(row) && |row.cells| == 2 then [(row.cells[0], row.cells[1])] else []
  }

  /** A data row opens a group when its left cell has text; that text is the group's label. */
  predicate Labelled(x: (string, string))
  {
    x.0 != ""
  }

  /** The right texts of the unlabelled rows at the front of `d`, up to the first labelled row. */
  function Leading(d: seq<(string, string)>): (r: seq<string>)
    ensures |r| <= |d|
    ensures forall k :: 0 <= k < |r| ==> r[k] == d[k].1 && !Labelled(d[k])
    ensures |r| < |d| ==> Labelled(d[|r|])
  {
    if d == [] || Labelled(d[0]) then [] else [d[0].1] + Leading(d[1..])
  }

  /**
   * The groups of a table, in order: one per labelled row, holding its label
   * and its right text followed by those of the unlabelled rows directly after it.
   */
  function Groups(d: seq<(string, string)>): seq<(Option<string>, seq<string>)>
  {
    if d == [] then []
    else if Labelled(d[0]) then [(Some(d[0].0), [d[0].1] + Leading(d[1..]))] + Groups(d[1..])
    else Groups(d[1..])
  }

  /**
   * What the table becomes: each group stored under its label, a later group
   * with the same label replacing an earlier one; with no labelled row at all,
   * the right texts of every row under `None`.
   */
  function Table(d: seq<(string, string)>): map<Option<string>, seq<string>>
  {
    if Groups(d) == [] then map[None := Leading(d)] else FromPairs(Groups(d))
  }

  /** The labels the groups carry are exactly the texts of the labelled rows. */
  lemma {:induction false} GroupsKeys(d: seq<(string, string)>)
    ensures forall l :: Some(l) in Keys(Groups(d)) <==> exists j :: 0 <= j < |d| && Labelled(d[j]) && d[j].0 == l
    ensures None !in Keys(Groups(d))
    ensures Groups(d) == [] <==> forall j :: 0 <= j < |d| ==> !Labelled(d[j])
    decreases |d|
  {
    if d != [] {
      GroupsKeys(d[1..]);
      assert forall j :: 0 < j < |d| ==> d[1..][j - 1] == d[j];
      var g := Groups(d);
      if Labelled(d[0]) {
        assert g[0].0 == Some(d[0].0);
        assert forall k :: 0 < k < |g| ==> g[k] == Groups(d[1..])[k - 1];
        assert forall k :: 0 <= k < |Groups(d[1..])| ==> Groups(d[1..])[k] == g[k + 1];
      }
    }
  }

  /** The front unlabelled rows of a table with a row added at its end. */
  lemma {:induction false} LeadingSnoc(d: seq<(string, string)>, x: (string, string))
    ensures Leading(d + [x]) == if Groups(d) == [] && !Labelled(x) then Leading(d) + [x.1] else Leading(d)
    decreases |d|
  {
    if d == [] {
      assert Leading([x][1..]) == [];
    } else {
      assert (d + [x])[1..] == d[1..] + [x];
      LeadingSnoc(d[1..], x);
    }
  }

  /** `g` with `v` appended to the values of its last group. */
  function Extend(g: seq<(Option<string>, seq<string>)>, v: string): seq<(Option<string>, seq<string>)>
    requires g != []
  {
    g[..|g| - 1] + [(g[|g| - 1].0, g[|g| - 1].1 + [v])]
  }

  /** A labelled row added at the end of a table opens a group of its own. */
  lemma {:induction false} GroupsSnocLabelled(d: seq<(string, string)>, x: (string, string))
    requires Labelled(x)
    ensures Groups(d + [x]) == Groups(d) + [(Some(x.0), [x.1])]
    decreases |d|
  {
    if d == [] {
      assert [] + [x] == [x];
      assert [x][1..] == [];
      assert [x.1] + [] == [x.1];
    } else {
      var rest := d[1..];
      assert (d + [x])[0] == d[0];
      assert (d + [x])[1..] == rest + [x];
      GroupsSnocLabelled(rest, x);
      if Labelled(d[0]) {
        LeadingSnoc(rest, x);
        var h := (Some(d[0].0), [d[0].1] + Leading(rest));
        assert Groups(d + [x]) == [h] + Groups(rest + [x]);
        assert [h] + (Groups(rest) + [(Some(x.0), [x.1])]) == ([h] + Groups(rest)) + [(Some(x.0), [x.1])];
      }
    }
  }

  /** An unlabelled row added at the end of a table joins its last group, and is dropped when there is none. */
  lemma {:induction false} GroupsSnocUnlabelled(d: seq<(string, string)>, x: (string, string))
    requires !Labelled(x)
    ensures Groups(d) == [] ==> Groups(d + [x]) == []
    ensures Groups(d) != [] ==> Groups(d + [x]) == Extend(Groups(d), x.1)
    decreases |d|
  {
    if d == [] {
      assert [] + [x] == [x];
      assert [x][1..] == [];
    } else {
      var rest := d[1..];
      assert (d + [x])[0] == d[0];
      assert (d + [x])[1..] == rest + [x];
      GroupsSnocUnlabelled(rest, x);
      if Labelled(d[0]) {
        LeadingSnoc(rest, x);
        var g := Groups(rest);
        var h := (Some(d[0].0), [d[0].1] + Leading(rest));
        var h' := (Some(d[0].0), [d[0].1] + Leading(rest + [x]));
        assert Groups(d + [x]) == [h'] + Groups(rest + [x]);
        assert Groups(d) == [h] + g;
        if g == [] {
          assert [d[0].1] + (Leading(rest) + [x.1]) == [d[0].1] + Leading(rest) + [x.1];
        } else {
          assert h' == h;
          var last := (g[|g| - 1].0, g[|g| - 1].1 + [x.1]);
          assert ([h] + g)[..|g|] == [h] + g[..|g| - 1];
          assert ([h] + g)[|g|] == g[|g| - 1];
          assert [h] + (g[..|g| - 1] + [last]) == ([h] + g[..|g| - 1]) + [last];
        }
      }
    }
  }

  /** The loop's `result`, `header` and `values` after the data rows `d`. */
  predicate TableState(d: seq<(string, string)>, result: map<Option<string>, seq<string>>, header: Option<string>, values: seq<string>)
  {
    var g := Groups(d);
    if g == [] then header == None && values == Leading(d) && result == map[]
    else header == g[|g| - 1].0 && values == g[|g| - 1].1 && result == FromPairs(g[..|g| - 1])
  }

  lemma UnlabelledStep(d: seq<(string, string)>, x: (string, string), result: map<Option<string>, seq<string>>, header: Option<string>, values: seq<string>)
    requires TableState(d, result, header, values) && !Labelled(x)
    ensures TableState(d + [x], result, header, values + [x.1])
  {
    GroupsSnocUnlabelled(d, x);
    LeadingSnoc(d, x);
    var g := Groups(d);
    if g != [] {
      var g' := Groups(d + [x]);
      assert g'[..|g'| - 1] == g[..|g| - 1];
    }
  }

  lemma LabelledStep(d: seq<(string, string)>, x: (string, string), result: map<Option<string>, seq<string>>, header: Option<string>, values: seq<string>)
    requires TableState(d, result, header, values) && Labelled(x)
    ensures TableState(d + [x], if header.Some? then result[header := values] else result, Some(x.0), [x.1])
  {
    GroupsSnocLabelled(d, x);
    GroupsKeys(d);
    var g := Groups(d);
    var g' := Groups(d + [x]);
    assert g'[..|g'| - 1] == g;
    if g != [] {
      assert g[|g| - 1].0 in Keys(g);
      assert g[..|g| - 1] + [g[|g| - 1]] == g;
      FromPairsSnoc(g[..|g| - 1], g[|g| - 1].0, g[|g| - 1].1);
    }
  }

  lemma FinalStore(d: seq<(string, string)>, result: map<Option<string>, seq<string>>, header: Option<string>, values: seq<string>)
    requires TableState(d, result, header, values)
    ensures result[header := values] == Table(d)
  {
    var g := Groups(d);
    if g != [] {
      assert g[..|g| - 1] + [g[|g| - 1]] == g;
      FromPairsSnoc(g[..|g| - 1], g[|g| - 1].0, g[|g| - 1].1);
    }
  }

  /**
   * `Handler._extract_table`: the rows' groups stored under their labels, or a
   * `ValueError` at the first data row without exactly two cells.
   */
  method ExtractTable(rows: seq<TableRow>) returns (r: Result<map<Option<string>, seq<string>>, UnpackError>)
    ensures r.Ok? <==> !Malformed(rows)
    ensures r.Ok? ==> r.value == Table(Data(rows))
    ensures r.Err? ==> exists i :: 0 <= i < |rows| && FirstMalformed(rows, i) && r.error == ValueError(|rows[i].cells|)
  {
    var result: map<Option<string>, seq<string>> := map[];
    var header: Option<string> := None;
    var values: seq<string> := [];
    for i := 0 to |rows|
      invariant !Malformed(rows[..i])
      invariant TableState(Data(rows[..i]), result, header, values)
    {
      var row := rows[i];
      assert rows[..i + 1][..i] == rows[..i];
      assert forall j :: 0 <= j < i ==> rows[..i + 1][j] == rows[..i][j];
      if row.hasHeaderCell {
        assert Data(rows[..i + 1]) == Data(rows[..i]) + [] == Data(rows[..i]);
        continue;
      }
      if |row.cells| != 2 {
        r := Err(ValueError(|row.cells|));
        assert FirstMalformed(rows, i);
        return;
      }
      var left, right := row.cells[0], row.cells[1];
      assert Data(rows[..i + 1]) == Data(rows[..i]) + [(left, right)];
      if left != "" {
        LabelledStep(Data(rows[..i]), (left, right), result, header, values);
        if header.Some? {
          result := result[header := values];
        }
        header := Some(left);
        values := [right];
      } else {
        UnlabelledStep(Data(rows[..i]), (left, right), result, header, values);
        values := values + [right];
      }
    }
    assert rows[..|rows|] == rows;
    FinalStore(Data(rows), result, header, values);
    result := result[header := values];
    r := Ok(result);
  }

  /** A table is never empty: it holds at least its last group, or the `None` group. */
  lemma TableNeverEmpty(d: seq<(string, string)>)
    ensures Table(d) != map[]
  {
    if Groups(d) != [] {
      assert Groups(d)[0].0 in Keys(Groups(d));
    } else {
      assert None in Table(d);
    }
  }

  /**
   * A table whose rows all lack a label is one `None` group of every row's
   * right text; a table with a label has no `None` key, so rows before its
   * first label are dropped.
   */
  lemma TableOfUnlabelled(d: seq<(string, string)>)
    ensures (forall j :: 0 <= j < |d| ==> !Labelled(d[j])) ==>
      Table(d).Keys == {None} && |Table(d)[None]| == |d| && forall j :: 0 <= j < |d| ==> Table(d)[None][j] == d[j].1
    ensures (exists j :: 0 <= j < |d| && Labelled(d[j])) ==> None !in Table(d)
  {
    GroupsKeys(d);
  }

  /** The labels of a table are exactly the texts of its labelled rows. */
  lemma TableLabels(d: seq<(string, string)>, l: string)
    ensures Some(l) in Table(d) <==> exists j :: 0 <= j < |d| && Labelled(d[j]) && d[j].0 == l
  {
    GroupsKeys(d);
  }

  /** The groups, stored in order, leave each label with the group of its last labelled row. */
  lemma {:induction false} GroupsOfLastLabel(d: seq<(string, string)>, i: nat)
    requires i < |d| && Labelled(d[i])
    requires forall j :: i < j < |d| ==> d[j].0 != d[i].0
    ensures Some(d[i].0) in FromPairs(Groups(d))
    ensures FromPairs(Groups(d))[Some(d[i].0)] == [d[i].1] + Leading(d[i + 1..])
    decreases |d|
  {
    var rest := d[1..];
    var key := Some(d[i].0);
    if i == 0 {
      var h := (key, [d[0].1] + Leading(rest));
      assert Groups(d) == [h] + Groups(rest);
      GroupsKeys(rest);
      assert key !in Keys(Groups(rest)) by {
        forall j | 0 <= j < |rest| ensures rest[j].0 != d[0].0 {
          assert rest[j] == d[j + 1];
        }
      }
      assert [] + [h] == [h];
      FromPairsSnoc([], h.0, h.1);
      FromPairsBefore([h], Groups(rest), key);
    } else {
      assert forall j :: i - 1 < j < |rest| ==> rest[j] == d[j + 1];
      GroupsOfLastLabel(rest, i - 1);
      assert rest[i - 1] == d[i] && rest[i..] == d[i + 1..];
      if Labelled(d[0]) {
        var h := (Some(d[0].0), [d[0].1] + Leading(rest));
        assert Groups(d) == [h] + Groups(rest);
        FromPairsConcat([h], Groups(rest), key);
      } else {
        assert Groups(d) == Groups(rest);
      }
    }
  }

  /**
   * A label takes the group of its last labelled row: that row's right text,
   * then the right texts of the unlabelled rows directly after it. An earlier
   * group with the same label is replaced, not merged.
   */
  lemma TableOfLastLabel(d: seq<(string, string)>, i: nat)
    requires i < |d| && Labelled(d[i])
    requires forall j :: i < j < |d| ==> d[j].0 != d[i].0
    ensures Some(d[i].0) in Table(d)
    ensures Table(d)[Some(d[i].0)] == [d[i].1] + Leading(d[i + 1..])
  {
    GroupsKeys(d);
    GroupsOfLastLabel(d, i);
  }

  // ---------------------------------------------------------------------------
  // Breed information
  // ---------------------------------------------------------------------------

  datatype Span = Span(text: string, linkTexts: seq<string>)

  datatype Div = Div(spans: seq<Span>)

  /** A breed-information value: the span's text, or the texts of its links. */
  datatype InfoValue = Plain(text: string) | LinkTexts(texts: seq<string>)

  /** The marker left in a header by the link to the pedigree history. */
  const PedigreeHistory: string := "[Pedigree History ]"

  /** The header a `div` files its value under: the header span's stripped text without the marker. */
  function HeaderOf(h: Span): string
  {
    RemoveAll(Strip(h.text), PedigreeHistory)
  }

  /** `[t.strip() for t in texts]`. */
  function StripAll(texts: seq<string>): seq<string>
  {
    if texts == [] then [] else [Strip(texts[0])] + StripAll(texts[1..])
  }

  /** Each link text is stripped, in order, and none is dropped. */
  lemma {:induction false} StripAllAt(texts: seq<string>)
    ensures |StripAll(texts)| == |texts|
    ensures forall k :: 0 <= k < |texts| ==> StripAll(texts)[k] == Strip(texts[k])
    decreases |texts|
  {
    if texts != [] {
      StripAllAt(texts[1..]);
    }
  }

  /**
   * The value of a `div`: the stripped texts of its value span's links when it
   * holds more than one link, and otherwise the span's stripped text.
   */
  function ValueOf(v: Span): (r: InfoValue)
    ensures r.LinkTexts? <==> |v.linkTexts| > 1
    ensures r.Plain? ==> r.text == Strip(v.text)
    ensures r.LinkTexts? ==>
      |r.texts| == |v.linkTexts| && forall k :: 0 <= k < |r.texts| ==> r.texts[k] == Strip(v.linkTexts[k])
  {
    if |v.linkTexts| > 1 then
      StripAllAt(v.linkTexts);
      LinkTexts(StripAll(v.linkTexts))
    else Plain(Strip(v.text))
  }

  predicate BadDiv(div: Div)
  {
    |div.spans| != 2
  }

  /** The assignment `result[header] = value` the loop makes for one `div`. */
  function InfoPair(div: Div): (string, InfoValue)
    requires |div.spans| == 2
  {
    (HeaderOf(div.spans[0]), ValueOf(div.spans[1]))
  }

  /** The assignments the loop makes over `divs`, in order. */
  function InfoPairs(divs: seq<Div>): seq<(string, InfoValue)>
    requires forall i :: 0 <= i < |divs| ==> |divs[i].spans| == 2
    decreases |divs|
  {
    if divs == [] then [] else InfoPairs(divs[..|divs| - 1]) + [InfoPair(divs[|divs| - 1])]
  }

  /** One more `div` adds its assignment at the end. */
  lemma InfoPairsSnoc(divs: seq<Div>, i: nat)
    requires i < |divs| && forall j :: 0 <= j <= i ==> |divs[j].spans| == 2
    ensures InfoPairs(divs[..i + 1]) == InfoPairs(divs[..i]) + [InfoPair(divs[i])]
  {
    assert divs[..i + 1][..i] == divs[..i];
  }

  /**
   * `Handler._extract_breed_info`: `None` when the page has no breed-information
   * block, a `ValueError` at the first `div` without exactly two spans, and
   * otherwise each `div`'s value under its header, in order.
   */
  method ExtractBreedInfo(info: Option<seq<Div>>) returns (r: Result<Option<map<string, InfoValue>>, UnpackError>)
    ensures info.None? ==> r == Ok(None)
    ensures info.Some? ==> (r.Err? <==> exists i :: 0 <= i < |info.value| && BadDiv(info.value[i]))
    ensures r.Err? ==>
      exists i :: 0 <= i < |info.value| && BadDiv(info.value[i])
        && (forall j :: 0 <= j < i ==> !BadDiv(info.value[j])) && r.error == ValueError(|info.value[i].spans|)
    ensures info.Some? && r.Ok? ==> r.value == Some(FromPairs(InfoPairs(info.value)))
  {
    if info.None? {
      return Ok(None);
    }
    var divs := info.value;
    var result: map<string, InfoValue> := map[];
    for i := 0 to |divs|
      invariant forall j :: 0 <= j < i ==> |divs[j].spans| == 2
      invariant result == FromPairs(InfoPairs(divs[..i]))
    {
      var div := divs[i];
      if |div.spans| != 2 {
        r := Err(ValueError(|div.spans|));
        assert BadDiv(divs[i]) && forall j :: 0 <= j < i ==> !BadDiv(divs[j]);
        return;
      }
      var h, v := div.spans[0], div.spans[1];
      var header := RemoveAll(Strip(h.text), PedigreeHistory);
      var value: InfoValue;
      if |v.linkTexts| > 1 {
        value := LinkTexts(StripAll(v.linkTexts));
      } else {
        value := Plain(Strip(v.text));
      }
      assert (header, value) == InfoPair(div);
      InfoPairsSnoc(divs, i);
      FromPairsSnoc(InfoPairs(divs[..i]), header, value);
      result := result[header := value];
    }
    assert divs[..|divs|] == divs;
    assert forall j :: 0 <= j < |divs| ==> !BadDiv(divs[j]);
    r := Ok(Some(result));
  }

  lemma {:induction false} InfoPairsAt(divs: seq<Div>)
    requires forall j :: 0 <= j < |divs| ==> |divs[j].spans| == 2
    ensures |InfoPairs(divs)| == |divs| && forall j :: 0 <= j < |divs| ==> InfoPairs(divs)[j] == InfoPair(divs[j])
    decreases |divs|
  {
    if divs != [] {
      var init := divs[..|divs| - 1];
      InfoPairsAt(init);
      var p := InfoPairs(init);
      assert InfoPairs(divs) == p + [InfoPair(divs[|divs| - 1])];
      forall j | 0 <= j < |divs|
        ensures InfoPairs(divs)[j] == InfoPair(divs[j])
      {
        if j < |init| {
          assert init[j] == divs[j];
          assert InfoPairs(divs)[j] == p[j];
        }
      }
    }
  }

  /**
   * The headers of the breed information are those of its `div`s, and each
   * takes the value of the last `div` with that header.
   */
  lemma {:induction false} BreedInfoOfLastDiv(divs: seq<Div>, i: nat)
    requires forall j :: 0 <= j < |divs| ==> |divs[j].spans| == 2
    requires i < |divs|
    requires forall j :: i < j < |divs| ==> HeaderOf(divs[j].spans[0]) != HeaderOf(divs[i].spans[0])
    ensures HeaderOf(divs[i].spans[0]) in FromPairs(InfoPairs(divs))
    ensures FromPairs(InfoPairs(divs))[HeaderOf(divs[i].spans[0])] == ValueOf(divs[i].spans[1])
  {
    var pairs := InfoPairs(divs);
    InfoPairsAt(divs);
    FromPairsLastWins(pairs, i);
  }

  /** Every header of the breed information comes from one of its `div`s. */
  lemma {:induction false} BreedInfoHeaders(divs: seq<Div>, header: string)
    requires forall j :: 0 <= j < |divs| ==> |divs[j].spans| == 2
    ensures header in FromPairs(InfoPairs(divs)) <==> exists j :: 0 <= j < |divs| && HeaderOf(divs[j].spans[0]) == header
  {
    var pairs := InfoPairs(divs);
    InfoPairsAt(divs);
    if exists j :: 0 <= j < |divs| && HeaderOf(divs[j].spans[0]) == header {
      var j :| 0 <= j < |divs| && HeaderOf(divs[j].spans[0]) == header;
      assert pairs[j].0 == header;
    }
  }
}
