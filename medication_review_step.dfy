/** The Review step of the five-step flow: the preview card (icon colours,
    name, strength chips, form) and the four summary rows with their
    completeness marks. */
module MedicationReviewStep {
  import opened Base
  import opened Text
  import opened MedicationTypes
  import opened AddMedicationFlow
  import opened ReviewStep

  /** The icon styles by colour name: background and text class. */
  const ColorClasses: map<string, (string, string)> := map[
    "blue" := ("bg-blue-50", "text-blue-500"),
    "pink" := ("bg-pink-50", "text-pink-500"),
    "yellow" := ("bg-amber-50", "text-amber-500"),
    "green" := ("bg-emerald-50", "text-emerald-500"),
    "purple" := ("bg-purple-50", "text-purple-500"),
    "red" := ("bg-red-50", "text-red-500"),
    "orange" := ("bg-orange-50", "text-orange-500"),
    "teal" := ("bg-teal-50", "text-teal-500")]

  /** The icon style for a colour: its own entry, or blue's for a colour the
      table does not know. */
  function ColorStyle(color: string): (r: (string, string))
    ensures color in ColorClasses ==> r == ColorClasses[color]
    ensures color !in ColorClasses ==> r == ("bg-blue-50", "text-blue-500")
  {
    if color in ColorClasses then ColorClasses[color] else ColorClasses["blue"]
  }

  /** Every colour the colour step offers has a style of its own, so the
      blue fallback is reached only by colours from elsewhere. */
  lemma PillColorsStyled()
    ensures forall p | p in PillColors :: p.0 in ColorClasses
  {
    forall i | 0 <= i < |PillColors| ensures PillColors[i].0 in ColorClasses {
    }
  }

  /** The first character upper-cased, the rest unchanged; the empty colour
      stays empty. */
  function ColorLabel(color: string): (r: string)
    ensures |r| == |color|
    ensures color != "" ==> r[0] == ToUpperChar(color[0]) && r[1..] == color[1..]
  {
    if color == "" then "" else [ToUpperChar(color[0])] + color[1..]
  }

  /** Upper-casing the first character again changes nothing. */
  lemma ColorLabelIdempotent(color: string)
    ensures ColorLabel(ColorLabel(color)) == ColorLabel(color)
  {
    if color != "" {
      var r := ColorLabel(color);
      assert r == [ToUpperChar(color[0])] + color[1..];
    }
  }

  /** The label of every colour the colour step offers is the label that step
      shows for it. */
  lemma PillColorLabels()
    ensures forall p | p in PillColors :: ColorLabel(p.0) == p.1
  {
    forall p | p in PillColors ensures ColorLabel(p.0) == p.1 {
      ColorLabelOf(p.0, p.1);
    }
  }

  /** One colour name against its label: the capitalised first letter and the
      unchanged rest. */
  lemma ColorLabelOf(name: string, title: string)
    requires (name, title) in PillColors
    ensures ColorLabel(name) == title
  {
    var i :| 0 <= i < |PillColors| && PillColors[i] == (name, title);
    assert name[1..] == title[1..];
  }

  /** `strengths.filter(s => s.value)`: the entries with a non-empty value,
      whitespace included, in order. */
  function FilledEntries(strengths: seq<StrengthEntry>): (r: seq<StrengthEntry>)
    ensures |r| <= |strengths|
    ensures forall e :: e in r <==> e in strengths && e.value != ""
  {
    if strengths == [] then []
    else if strengths[0].value == "" then FilledEntries(strengths[1..])
    else [strengths[0]] + FilledEntries(strengths[1..])
  }

  /** Filtering distributes over concatenation, so the entries kept stay in
      their order. */
  lemma {:induction false} FilledEntriesAppend(xs: seq<StrengthEntry>, ys: seq<StrengthEntry>)
    ensures FilledEntries(xs + ys) == FilledEntries(xs) + FilledEntries(ys)
  {
    if xs == [] {
      assert xs + ys == ys;
    } else {
      assert (xs + ys)[1..] == xs[1..] + ys;
      FilledEntriesAppend(xs[1..], ys);
    }
  }

  /** The preview card's strength chips: chip `i` is the untrimmed label of
      the `i`-th entry with a non-empty value, and no chip is empty. */
  function Chips(strengths: seq<StrengthEntry>): (r: seq<string>)
    ensures |r| == |FilledEntries(strengths)| <= |strengths|
    ensures forall i :: 0 <= i < |r| ==> r[i] == StrengthLabel(FilledEntries(strengths)[i])
    ensures forall l | l in r :: l != ""
  {
    var labels := StrengthLabels(FilledEntries(strengths));
    assert forall i | 0 <= i < |labels| :: labels[i] != "" by {
      forall i | 0 <= i < |labels| ensures labels[i] != "" {
        assert FilledEntries(strengths)[i] in FilledEntries(strengths);
      }
    }
    labels
  }

  /** The four summary rows. */
  function Items(d: MedicationFormData): (r: seq<SummaryItem>)
    ensures |r| == 4
    ensures r[0] == SummaryItem("Name", d.name, d.name != "")
    ensures r[1] == SummaryItem("Form", DisplayForm(d.form, d.customForm), d.form != "")
    ensures r[2].title == "Strengths" && r[2].value == Join(Chips(d.strengths), ", ")
    ensures r[2].isComplete <==> exists e | e in d.strengths :: e.value != ""
    ensures r[3] == SummaryItem("Color", ColorLabel(d.color), d.color != "")
  {
    [SummaryItem("Name", d.name, d.name != ""),
     SummaryItem("Form", DisplayForm(d.form, d.customForm), d.form != ""),
     SummaryItem("Strengths", Join(Chips(d.strengths), ", "), exists e | e in d.strengths :: e.value != ""),
     SummaryItem("Color", ColorLabel(d.color), d.color != "")]
  }

  /** Each row is marked complete exactly when its value is not empty: the
      Strengths row has text exactly when some strength has a value. */
  lemma ItemsCompleteIffValue(d: MedicationFormData)
    ensures Items(d)[0].isComplete <==> Items(d)[0].value != ""
    ensures Items(d)[2].isComplete <==> Items(d)[2].value != ""
    ensures Items(d)[3].isComplete <==> Items(d)[3].value != ""
  {
    var filled := FilledEntries(d.strengths);
    var chips := Chips(d.strengths);
    JoinEmpty(chips, ", ");
    if exists e | e in d.strengths :: e.value != "" {
      var e :| e in d.strengths && e.value != "";
      assert e in filled;
      assert |chips| > 0;
      assert chips[0] in chips;
    }
    if chips != [] {
      var e := filled[0];
      assert e in filled;
    }
  }

  /** Every strength the save transform keeps shows as a chip: a value with a
      non-whitespace character is not empty. */
  lemma SavedStrengthsShown(d: MedicationFormData)
    ensures forall e | e in ValidStrengths(d.strengths) :: StrengthLabel(e) in Chips(d.strengths)
  {
    var filled := FilledEntries(d.strengths);
    var chips := Chips(d.strengths);
    forall e | e in ValidStrengths(d.strengths) ensures StrengthLabel(e) in chips {
      assert e in filled;
      var i :| 0 <= i < |filled| && filled[i] == e;
      assert chips[i] == StrengthLabel(e);
    }
  }

  /** The entries save keeps are the chips' entries with the whitespace-only
      ones dropped, in the same order. */
  lemma {:induction false} SavedAreFilteredChips(strengths: seq<StrengthEntry>)
    ensures ValidStrengths(FilledEntries(strengths)) == ValidStrengths(strengths)
  {
    if strengths != [] {
      SavedAreFilteredChips(strengths[1..]);
      if strengths[0].value == "" {
        assert IsBlank(strengths[0].value) by {
          assert Trim("") == [];
        }
      } else {
        assert FilledEntries(strengths) == [strengths[0]] + FilledEntries(strengths[1..]);
        assert ([strengths[0]] + FilledEntries(strengths[1..]))[1..] == FilledEntries(strengths[1..]);
      }
    }
  }

  /** A whitespace-only value shows as a chip here and marks the row
      complete, although the save transform drops it and the flow's Strength
      step does not let it pass. */
  lemma WhitespaceChipShownButDropped(id: string)
    ensures var d := MedicationFormData("Aspirin", "Tablet", None, [StrengthEntry(id, " ", "mg")], "blue");
      && Items(d)[2].isComplete
      && Chips(d.strengths) == [" mg"]
      && SaveTransform(d).strengths == []
      && !CanProceed(2, d)
  {
    var e := StrengthEntry(id, " ", "mg");
    assert IsBlank(e.value) by {
      TrimShape(" ");
    }
    assert FilledEntries([e]) == [e];
    assert e in [e];
    SpaceLabel(id);
  }

  lemma SpaceLabel(id: string)
    ensures StrengthLabels([StrengthEntry(id, " ", "mg")]) == [" mg"]
  {
    assert StrengthLabel(StrengthEntry(id, " ", "mg")) == " mg";
  }

  /** The Form row is marked complete on "Other" even without custom text
      (the wizard starts with an empty one), where the flow's Form step stays
      closed; the row then shows "Other". */
  lemma FormRowIgnoresCustomForm(d: MedicationFormData)
    requires d.form == "Other" && (d.customForm.None? || d.customForm == Some(""))
    ensures Items(d)[1].isComplete && Items(d)[1].value == "Other"
    ensures !CanProceed(1, d)
  {
  }

  /** The Form row shows the form the save transform stores. */
  lemma FormRowIsSavedForm(d: MedicationFormData)
    ensures Items(d)[1].value == SaveTransform(d).form
  {
  }

  /** Once every step before Review has passed, all four rows are marked
      complete. */
  lemma PassedStepsAllComplete(d: MedicationFormData)
    requires PassedSteps(LastStep, d)
    ensures forall i | 0 <= i < 4 :: Items(d)[i].isComplete
  {
    assert LastStep == 4;
    assert CanProceed(0, d);
    NonBlankNotEmpty(d.name);
    assert CanProceed(1, d) && CanProceed(3, d);
    assert CanProceed(2, d);
    var e :| e in d.strengths && !IsBlank(e.value);
    NonBlankNotEmpty(e.value);
    var items := Items(d);
    assert items[2].isComplete;
  }

  /** A string that is not blank once trimmed is not empty. */
  lemma NonBlankNotEmpty(s: string)
    requires !IsBlank(s)
    ensures s != ""
  {
  }
}
