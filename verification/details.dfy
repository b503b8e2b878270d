/** The ingredient-details panel of a product: the third field of the contract's answer is
    cut into entries at `" | "`, blank entries are dropped, each entry is cut into parts at
    `", "`, and each part is destructured as `const [label, value] = part.split(": ")`. */
module Details {
  import opened Options
  import opened Strings

  const EntrySeparator: String := " | "
  const PartSeparator: String := ", "
  const LabelSeparator: String := ": "

  /** What an empty product name or batch id renders as. */
  const NotAvailable: String := "N/A"
  /** What an empty detail string renders as instead of the entry list. */
  const NoDetails: String := "No additional details available."

  /** One `label: value` cell (the label is `key` here, `label` being a Dafny keyword); `value` is `None` when the part has no `": "`, which is the
      `undefined` that destructuring a one-element array yields. */
  datatype Field = Field(key: String, value: Option<String>)

  /** The two detail panel shapes: the placeholder, or the list of parsed entries. */
  datatype DetailsView = Placeholder(text: String) | EntryList(entries: seq<seq<Field>>)

  /** `const [label, value] = part.split(": ")`: the first two pieces, the rest dropped. */
  function ParseField(part: String): Field {
    var pieces := Split(part, LabelSeparator);
    Field(pieces[0], if |pieces| >= 2 then Some(pieces[1]) else None)
  }

  /** `detail.split(", ").map(...)`: one field per part, in order. */
  function ParseEntry(detail: String): seq<Field> {
    var parts := Split(detail, PartSeparator);
    seq(|parts|, k requires 0 <= k < |parts| => ParseField(parts[k]))
  }

  /** `.filter((detail) => detail.trim() !== "")`. */
  function KeepNonBlank(pieces: seq<String>): seq<String> {
    if |pieces| == 0 then []
    else if Trim(pieces[0]) != [] then [pieces[0]] + KeepNonBlank(pieces[1..])
    else KeepNonBlank(pieces[1..])
  }

  /** The detail entries of a detail string: its `" | "` pieces that are not blank. */
  function Entries(blob: String): seq<String> {
    KeepNonBlank(Split(blob, EntrySeparator))
  }

  /** The whole parse: one list of fields per detail entry. */
  function ParseDetails(blob: String): seq<seq<Field>> {
    var entries := Entries(blob);
    seq(|entries|, k requires 0 <= k < |entries| => ParseEntry(entries[k]))
  }

  /** `{productDetails[2] ? <entries/> : <p>No additional details available.</p>}`. */
  function RenderDetails(blob: String): DetailsView {
    if blob != [] then EntryList(ParseDetails(blob)) else Placeholder(NoDetails)
  }

  /** `{productDetails[i] || "N/A"}` for the name and the batch id. */
  function DisplayText(s: String): (r: String)
    ensures r != []
    ensures s != [] ==> r == s
    ensures s == [] ==> r == NotAvailable
  {
    if s != [] then s else NotAvailable
  }

  /** `{value}` of a field: React renders `undefined` as nothing. */
  function ValueText(f: Field): (r: String)
    ensures f.value.None? ==> r == []
    ensures f.value.Some? ==> r == f.value.value
  {
    match f.value
    case None => []
    case Some(v) => v
  }

  /** `sub` is `full` with some elements deleted, the order of the rest kept. */
  predicate Subsequence(sub: seq<String>, full: seq<String>)
    decreases |full|
  {
    || |sub| == 0
    || (&& |full| > 0
        && ((sub[0] == full[0] && Subsequence(sub[1..], full[1..])) || Subsequence(sub, full[1..])))
  }

  /** How many of `pieces` are blank. */
  function CountBlank(pieces: seq<String>): nat {
    if |pieces| == 0 then 0
    else (if IsBlank(pieces[0]) then 1 else 0) + CountBlank(pieces[1..])
  }

  /** The filter keeps exactly the non-blank pieces, in their original order: the result is
      a subsequence, none of its elements is blank, and exactly the blank ones are gone. */
  lemma {:induction false} KeepNonBlankSpec(pieces: seq<String>)
    ensures Subsequence(KeepNonBlank(pieces), pieces)
    ensures forall k :: 0 <= k < |KeepNonBlank(pieces)| ==> !IsBlank(KeepNonBlank(pieces)[k])
    ensures |KeepNonBlank(pieces)| + CountBlank(pieces) == |pieces|
    decreases |pieces|
  {
    if |pieces| > 0 {
      var rest := KeepNonBlank(pieces[1..]);
      KeepNonBlankSpec(pieces[1..]);
      TrimEmptyIffBlank(pieces[0]);
      if Trim(pieces[0]) != [] {
        assert KeepNonBlank(pieces) == [pieces[0]] + rest;
        assert ([pieces[0]] + rest)[1..] == rest;
      }
    }
  }

  /** The entries of a detail string: each is non-blank after trimming, they keep the
      left-to-right order of the `" | "` pieces with only the blank pieces removed, and
      re-joining all the pieces with `" | "` gives back the detail string. */
  lemma EntriesSpec(blob: String)
    ensures forall k :: 0 <= k < |Entries(blob)| ==> Trim(Entries(blob)[k]) != []
    ensures Subsequence(Entries(blob), Split(blob, EntrySeparator))
    ensures |Entries(blob)| + CountBlank(Split(blob, EntrySeparator)) == |Split(blob, EntrySeparator)|
    ensures Join(Split(blob, EntrySeparator), EntrySeparator) == blob
    ensures forall k :: 0 <= k < |Split(blob, EntrySeparator)| ==>
              Free(Split(blob, EntrySeparator)[k], EntrySeparator)
  {
    var entries := Entries(blob);
    KeepNonBlankSpec(Split(blob, EntrySeparator));
    forall k | 0 <= k < |entries|
      ensures Trim(entries[k]) != []
    {
      TrimEmptyIffBlank(entries[k]);
    }
    SplitJoin(blob, EntrySeparator);
    SplitPiecesFree(blob, EntrySeparator);
  }

  /** The label is the text before the first `": "`, or the whole part if there is none; the
      value is the text between the first and the second `": "` (the end of the part if there
      is no second one), or absent if there is no first one. */
  lemma ParseFieldSpec(part: String)
    ensures IndexOf(part, LabelSeparator).None? ==>
              ParseField(part) == Field(part, None)
    ensures IndexOf(part, LabelSeparator).Some? ==>
              var i := IndexOf(part, LabelSeparator).value;
              var after := part[i + |LabelSeparator|..];
              && ParseField(part).key == part[..i]
              && ParseField(part).value == Some(match IndexOf(after, LabelSeparator)
                                                case None => after
                                                case Some(j) => after[..j])
  {
    SplitUnfold(part, LabelSeparator);
    if IndexOf(part, LabelSeparator).Some? {
      var i := IndexOf(part, LabelSeparator).value;
      SplitUnfold(part[i + |LabelSeparator|..], LabelSeparator);
    }
  }

  /** Neither the label nor the value contains `": "`, and a part without a value is all
      label. */
  lemma ParseFieldFree(part: String)
    ensures Free(ParseField(part).key, LabelSeparator)
    ensures ParseField(part).value.Some? ==> Free(ParseField(part).value.value, LabelSeparator)
    ensures ParseField(part).value.None? ==> ParseField(part).key == part
  {
    SplitPiecesFree(part, LabelSeparator);
    SplitJoin(part, LabelSeparator);
  }

  /** An entry has one field per `", "`-separated part, the k-th field parsed from the k-th
      part, and those parts re-joined with `", "` give back the entry. */
  lemma ParseEntrySpec(detail: String)
    ensures |ParseEntry(detail)| == |Split(detail, PartSeparator)|
    ensures forall k :: 0 <= k < |ParseEntry(detail)| ==>
              ParseEntry(detail)[k] == ParseField(Split(detail, PartSeparator)[k])
    ensures Join(Split(detail, PartSeparator), PartSeparator) == detail
  {
    SplitJoin(detail, PartSeparator);
  }

  /** The placeholder is shown exactly for the empty detail string; otherwise the entry list
      is the parse. */
  lemma RenderDetailsSpec(blob: String)
    ensures RenderDetails(blob).Placeholder? <==> blob == []
    ensures RenderDetails(blob).Placeholder? ==> RenderDetails(blob).text == NoDetails
    ensures RenderDetails(blob).EntryList? ==>
              RenderDetails(blob).entries == ParseDetails(blob)
  {
  }

  /** The empty detail string parses to no entries, and so does any blank one: a non-empty
      string made only of blank entries shows an empty list rather than the placeholder. */
  lemma BlankParsesEmpty(blob: String)
    ensures ParseDetails([]) == []
    ensures IsBlank(blob) ==> ParseDetails(blob) == []
  {
    assert Split([], EntrySeparator) == [[]];
    assert Trim([]) == [];
    assert Entries([]) == KeepNonBlank([[]]) == [];
    if IsBlank(blob) {
      var pieces := Split(blob, EntrySeparator);
      SplitJoin(blob, EntrySeparator);
      KeepNonBlankSpec(pieces);
      JoinBlank(pieces, EntrySeparator);
      BlankCount(pieces);
    }
  }

  /** The entry list is empty exactly when every `" | "`-piece of the detail string is blank. */
  lemma NoEntriesIffAllBlank(blob: String)
    ensures ParseDetails(blob) == [] <==> AllBlank(Split(blob, EntrySeparator))
  {
    var pieces := Split(blob, EntrySeparator);
    KeepNonBlankSpec(pieces);
    CountBlankAll(pieces);
    assert Entries(blob) == KeepNonBlank(pieces);
    assert |ParseDetails(blob)| == |Entries(blob)|;
    assert ParseDetails(blob) == [] <==> |Entries(blob)| == 0;
    assert |Entries(blob)| == 0 <==> CountBlank(pieces) == |pieces|;
  }

  /** Every piece is blank. */
  predicate AllBlank(pieces: seq<String>) {
    forall k :: 0 <= k < |pieces| ==> IsBlank(pieces[k])
  }

  /** All pieces are blank exactly when the blank count is the number of pieces. */
  lemma {:induction false} CountBlankAll(pieces: seq<String>)
    ensures CountBlank(pieces) <= |pieces|
    ensures CountBlank(pieces) == |pieces| <==> AllBlank(pieces)
    decreases |pieces|
  {
    if |pieces| > 0 {
      CountBlankAll(pieces[1..]);
      if AllBlank(pieces) {
        assert AllBlank(pieces[1..]) by {
          forall k | 0 <= k < |pieces[1..]| ensures IsBlank(pieces[1..][k]) {
            assert pieces[1..][k] == pieces[k + 1];
          }
        }
      }
      if CountBlank(pieces) == |pieces| {
        forall k | 0 <= k < |pieces| ensures IsBlank(pieces[k]) {
          if k > 0 {
            assert pieces[k] == pieces[1..][k - 1];
          }
        }
      }
    }
  }

  /** A detail string that is only a separator is not empty, so it shows an entry list and not
      the placeholder, and that list is empty because both pieces are blank. */
  lemma SeparatorOnlyShowsEmptyList()
    ensures RenderDetails(" | ") == EntryList([])
  {
    SplitAt([], EntrySeparator, [], 1);
    assert [] + EntrySeparator + [] == " | ";
    assert Split([], EntrySeparator) == [[]];
    NoEntriesIffAllBlank(" | ");
  }

  /** Every piece of a blank join is blank. */
  lemma {:induction false} JoinBlank(pieces: seq<String>, sep: String)
    requires IsBlank(Join(pieces, sep))
    ensures forall k :: 0 <= k < |pieces| ==> IsBlank(pieces[k])
    decreases |pieces|
  {
    if |pieces| >= 2 {
      var j := Join(pieces, sep);
      assert j == pieces[0] + sep + Join(pieces[1..], sep);
      assert IsBlank(pieces[0]) by {
        forall i | 0 <= i < |pieces[0]| ensures IsWhitespace(pieces[0][i]) {
          assert pieces[0][i] == j[i];
        }
      }
      assert IsBlank(Join(pieces[1..], sep)) by {
        var off := |pieces[0]| + |sep|;
        forall i | 0 <= i < |Join(pieces[1..], sep)|
          ensures IsWhitespace(Join(pieces[1..], sep)[i])
        {
          assert Join(pieces[1..], sep)[i] == j[off + i];
        }
      }
      JoinBlank(pieces[1..], sep);
      forall k | 0 <= k < |pieces| ensures IsBlank(pieces[k]) {
        if k > 0 {
          assert pieces[k] == pieces[1..][k - 1];
        }
      }
    }
  }

  lemma {:induction false} BlankCount(pieces: seq<String>)
    requires forall k :: 0 <= k < |pieces| ==> IsBlank(pieces[k])
    ensures CountBlank(pieces) == |pieces|
    decreases |pieces|
  {
    if |pieces| > 0 {
      BlankCount(pieces[1..]);
    }
  }

  /** A two-stage detail string (Harvest at Farm A, then Processing at Plant B) parses into
      two entries of two label/value fields each. */
  lemma TwoStageExample()
    ensures ParseDetails("Stage: Harvest, Location: Farm A | Stage: Processing, Location: Plant B")
         == [[Field("Stage", Some("Harvest")), Field("Location", Some("Farm A"))],
             [Field("Stage", Some("Processing")), Field("Location", Some("Plant B"))]]
  {
    var e1 := "Stage: Harvest, Location: Farm A";
    var e2 := "Stage: Processing, Location: Plant B";
    TwoStageLiteral();
    TwoEntries(e1, e2);
    HarvestEntry();
    ProcessingEntry();
  }

  lemma TwoStageLiteral()
    ensures "Stage: Harvest, Location: Farm A | Stage: Processing, Location: Plant B"
         == "Stage: Harvest, Location: Farm A" + EntrySeparator + "Stage: Processing, Location: Plant B"
  {
  }

  /** Two entries free of `'|'` and starting with a visible character are parsed in order. */
  lemma TwoEntries(e1: String, e2: String)
    requires Lacks(e1, '|') && Lacks(e2, '|')
    requires |e1| > 0 && !IsWhitespace(e1[0]) && |e2| > 0 && !IsWhitespace(e2[0])
    ensures ParseDetails(e1 + EntrySeparator + e2) == [ParseEntry(e1), ParseEntry(e2)]
  {
    EntriesOfTwo(e1, e2);
    var parsed := ParseDetails(e1 + EntrySeparator + e2);
    assert |parsed| == 2 && parsed[0] == ParseEntry(e1) && parsed[1] == ParseEntry(e2);
  }

  lemma EntriesOfTwo(e1: String, e2: String)
    requires Lacks(e1, '|') && Lacks(e2, '|')
    requires |e1| > 0 && !IsWhitespace(e1[0]) && |e2| > 0 && !IsWhitespace(e2[0])
    ensures Entries(e1 + EntrySeparator + e2) == [e1, e2]
  {
    SplitAt(e1, EntrySeparator, e2, 1);
    SplitLacking(e2, EntrySeparator, 1);
    KeepTwo(e1, e2);
  }

  lemma KeepTwo(e1: String, e2: String)
    requires |e1| > 0 && !IsWhitespace(e1[0]) && |e2| > 0 && !IsWhitespace(e2[0])
    ensures KeepNonBlank([e1, e2]) == [e1, e2]
  {
    assert Trim(e1) != [] && Trim(e2) != [] by {
      TrimEmptyIffBlank(e1);
      TrimEmptyIffBlank(e2);
    }
    assert [e1, e2][1..] == [e2];
    assert KeepNonBlank([e2]) == [e2];
  }

  lemma HarvestEntry()
    ensures ParseEntry("Stage: Harvest, Location: Farm A")
         == [Field("Stage", Some("Harvest")), Field("Location", Some("Farm A"))]
  {
    var k1, v1, k2, v2 := "Stage", "Harvest", "Location", "Farm A";
    var p1, p2 := "Stage: Harvest", "Location: Farm A";
    assert p1 == k1 + ": " + v1;
    assert p2 == k2 + ": " + v2;
    assert "Stage: Harvest, Location: Farm A" == p1 + ", " + p2;
    assert Lacks(k1, ':') && Lacks(k1, ',') && Lacks(k2, ':') && Lacks(k2, ',');
    assert Lacks(v1, ':') && Lacks(v1, ',');
    assert Lacks(v2, ':') && Lacks(v2, ',');
    EntryExample(k1, v1, k2, v2);
  }

  lemma ProcessingEntry()
    ensures ParseEntry("Stage: Processing, Location: Plant B")
         == [Field("Stage", Some("Processing")), Field("Location", Some("Plant B"))]
  {
    var k1, v1, k2, v2 := "Stage", "Processing", "Location", "Plant B";
    var p1, p2 := "Stage: Processing", "Location: Plant B";
    assert p1 == k1 + ": " + v1;
    assert p2 == k2 + ": " + v2;
    assert "Stage: Processing, Location: Plant B" == p1 + ", " + p2;
    assert Lacks(k1, ':') && Lacks(k1, ',') && Lacks(k2, ':') && Lacks(k2, ',');
    assert Lacks(v1, ':') && Lacks(v1, ',');
    assert Lacks(v2, ':') && Lacks(v2, ',');
    EntryExample(k1, v1, k2, v2);
  }

  lemma EntryExample(k1: String, v1: String, k2: String, v2: String)
    requires Lacks(k1, ':') && Lacks(v1, ':') && Lacks(k2, ':') && Lacks(v2, ':')
    requires Lacks(k1, ',') && Lacks(v1, ',') && Lacks(k2, ',') && Lacks(v2, ',')
    ensures ParseEntry((k1 + ": " + v1) + ", " + (k2 + ": " + v2))
         == [Field(k1, Some(v1)), Field(k2, Some(v2))]
  {
    var p1, p2 := k1 + ": " + v1, k2 + ": " + v2;
    LacksConcat(k1, ": ", v1, ',');
    LacksConcat(k2, ": ", v2, ',');
    SplitAt(p1, PartSeparator, p2, 0);
    SplitLacking(p2, PartSeparator, 0);
    SplitAt(k1, LabelSeparator, v1, 0);
    SplitLacking(v1, LabelSeparator, 0);
    SplitAt(k2, LabelSeparator, v2, 0);
    SplitLacking(v2, LabelSeparator, 0);
  }

  lemma LacksConcat(a: String, sep: String, b: String, c: char)
    requires Lacks(a, c) && Lacks(sep, c) && Lacks(b, c)
    ensures Lacks(a + sep + b, c)
  {
  }

  /** Destructuring keeps only the first two pieces: `"a: b: c"` gives `"a"` and `"b"`. */
  lemma DestructuringDropsThird(a: String, b: String, c: String)
    requires Lacks(a, ':') && Lacks(b, ':')
    ensures ParseField(a + ": " + b + ": " + c) == Field(a, Some(b))
  {
    assert a + ": " + b + ": " + c == a + LabelSeparator + (b + LabelSeparator + c);
    SplitAt(a, LabelSeparator, b + LabelSeparator + c, 0);
    SplitAt(b, LabelSeparator, c, 0);
  }

  /** A part without `": "` is all label and has no value. */
  lemma DestructuringNoValue(part: String)
    requires Lacks(part, ':')
    ensures ParseField(part) == Field(part, None)
  {
    SplitLacking(part, LabelSeparator, 0);
  }

  /** The two destructuring cases on concrete parts. */
  lemma DestructuringExamples()
    ensures ParseField("a: b: c") == Field("a", Some("b"))
    ensures ParseField("organic") == Field("organic", None)
  {
    var a, b, c := "a", "b", "c";
    assert "a: b: c" == a + ": " + b + ": " + c;
    DestructuringDropsThird(a, b, c);
    var o := "organic";
    assert Lacks(o, ':');
    DestructuringNoValue(o);
  }
}
