/** The dosing step of the extended wizard: fixed or flexible dosing, the
    strength selection, the fixed quantity and the flexible summary line. */
module DosingTypeStep {
  import opened Base
  import opened Text
  import opened MedicationTypes

  /** A click on an offered strength: fixed dosing selects exactly that one;
      flexible dosing toggles it in the selection. */
  function ToggleStrength(dosingType: DosingType, selected: seq<string>, id: string): (r: seq<string>)
    ensures dosingType == Fixed ==> r == [id]
    ensures dosingType == Flexible ==> r == Toggle(selected, id)
    ensures dosingType == Flexible ==> (id in r <==> id !in selected)
    ensures dosingType == Flexible ==> forall other :: other != id ==> (other in r <==> other in selected)
  {
    if dosingType == Fixed then [id] else Toggle(selected, id)
  }

  /** In flexible mode two clicks on a strength that was not selected give the
      selection back unchanged; on one that was, the same ids stay selected.
      In fixed mode a second click changes nothing. */
  lemma ToggleStrengthTwice(dosingType: DosingType, selected: seq<string>, id: string)
    ensures dosingType == Flexible && id !in selected ==>
      ToggleStrength(dosingType, ToggleStrength(dosingType, selected, id), id) == selected
    ensures dosingType == Flexible ==> forall other ::
      other in ToggleStrength(dosingType, ToggleStrength(dosingType, selected, id), id) <==> other in selected
    ensures dosingType == Fixed ==>
      ToggleStrength(dosingType, ToggleStrength(dosingType, selected, id), id) == ToggleStrength(dosingType, selected, id)
  {
    if dosingType == Flexible {
      if id in selected {
        ToggleTwicePresent(selected, id);
      } else {
        ToggleTwiceAbsent(selected, id);
      }
    }
  }

  /** Either dosing-type button: the type is set and the selection cleared. */
  function ChooseDosingType(d: ExtendedFormData, t: DosingType): (r: ExtendedFormData)
    ensures r.dosingType == t && r.selectedStrengths == []
    ensures r.(dosingType := d.dosingType, selectedStrengths := d.selectedStrengths) == d
  {
    d.(dosingType := t, selectedStrengths := [])
  }

  /** The minus button: one less, never below 1. */
  function DecrementQuantity(q: int): (r: int)
    ensures r >= 1
    ensures q > 1 ==> r == q - 1
    ensures q <= 1 ==> r == 1
  {
    if q - 1 > 1 then q - 1 else 1
  }

  /** The plus button. */
  function IncrementQuantity(q: int): (r: int)
    ensures r == q + 1
  {
    q + 1
  }

  /** The minus button is disabled at 1 or below. */
  function DecrementDisabled(q: int): (b: bool)
    ensures b ==> DecrementQuantity(q) == 1
    ensures !b ==> DecrementQuantity(q) == q - 1
  {
    q <= 1
  }

  /** Plus then minus gives a quantity of at least 1 back; an enabled minus
      lowers by exactly one, and a quantity of at least 1 stays so under
      either button. */
  lemma QuantityButtons(q: int)
    ensures q >= 1 ==> DecrementQuantity(IncrementQuantity(q)) == q
    ensures !DecrementDisabled(q) ==> DecrementQuantity(q) == q - 1
    ensures q >= 1 ==> IncrementQuantity(q) >= 1 && DecrementQuantity(q) >= 1
  {
  }

  /** `entries.findIndex(e => e.id === id)`, `None` for -1. */
  function FindIndexById(entries: seq<StrengthEntry>, id: string): (r: Option<nat>)
    ensures r.None? <==> forall e | e in entries :: e.id != id
    ensures r.Some? ==> r.value < |entries| && entries[r.value].id == id
    ensures r.Some? ==> forall j :: 0 <= j < r.value ==> entries[j].id != id
  {
    if entries == [] then None
    else if entries[0].id == id then Some(0)
    else
      match FindIndexById(entries[1..], id)
      case None => None
      case Some(k) => Some(k + 1)
  }

  /** `entries.find(e => e.id === id)`: the first entry with that id. */
  function FindById(entries: seq<StrengthEntry>, id: string): (r: Option<StrengthEntry>)
    ensures r.None? <==> forall e | e in entries :: e.id != id
    ensures r.Some? ==> r.value in entries && r.value.id == id
    ensures r.Some? ==> exists k | 0 <= k < |entries| :: entries[k] == r.value && forall j | 0 <= j < k :: entries[j].id != id
  {
    match FindIndexById(entries, id)
    case None => None
    case Some(k) => Some(entries[k])
  }

  /** The strength the fixed quantity applies to: nothing when no strength is
      selected, else the offered strength whose id is the first selected one,
      if there is one. */
  function GetSelectedStrength(strengths: seq<StrengthEntry>, selected: seq<string>): (r: Option<StrengthEntry>)
    ensures selected == [] ==> r.None?
    ensures r.Some? ==> r.value in strengths && !IsBlank(r.value.value) && r.value.id == selected[0]
    ensures selected != [] && (exists e | e in strengths :: e.id == selected[0] && !IsBlank(e.value)) ==> r.Some?
    ensures r.Some? ==> exists k | 0 <= k < |ValidStrengths(strengths)| ::
      ValidStrengths(strengths)[k] == r.value && forall j | 0 <= j < k :: ValidStrengths(strengths)[j].id != selected[0]
  {
    if selected == [] then None else FindById(ValidStrengths(strengths), selected[0])
  }

  /** In fixed mode a click on an offered strength makes it the selected
      strength. */
  lemma FixedClickSelects(strengths: seq<StrengthEntry>, selected: seq<string>, e: StrengthEntry)
    requires e in ValidStrengths(strengths)
    requires UniqueIds(strengths)
    ensures GetSelectedStrength(strengths, ToggleStrength(Fixed, selected, e.id)) == Some(e)
  {
    var r := GetSelectedStrength(strengths, [e.id]);
    assert r.Some?;
    var i :| 0 <= i < |strengths| && strengths[i] == r.value;
    var j :| 0 <= j < |strengths| && strengths[j] == e;
    assert i == j;
  }

  /** The labels of the selected ids, in selection order, each id looked up
      among the offered strengths; ids with no offered strength (and empty
      labels) are skipped. */
  function SelectedLabels(valid: seq<StrengthEntry>, selected: seq<string>): (r: seq<string>)
    ensures |r| <= |selected|
    ensures forall l | l in r :: l != "" && exists e | e in valid :: e.id in selected && StrengthLabel(e) == l
  {
    if selected == [] then []
    else
      var rest := SelectedLabels(valid, selected[..|selected| - 1]);
      var last := FindById(valid, selected[|selected| - 1]);
      if last.Some? && StrengthLabel(last.value) != "" then rest + [StrengthLabel(last.value)]
      else rest
  }

  /** The summary of a longer selection extends the summary of a shorter one,
      so labels appear in selection order. */
  lemma {:induction false} SelectedLabelsAppend(valid: seq<StrengthEntry>, a: seq<string>, b: seq<string>)
    ensures SelectedLabels(valid, a + b) == SelectedLabels(valid, a) + SelectedLabels(valid, b)
  {
    if b == [] {
      assert a + b == a;
    } else {
      var b' := b[..|b| - 1];
      assert (a + b)[..|a + b| - 1] == a + b';
      assert (a + b)[|a + b| - 1] == b[|b| - 1];
      SelectedLabelsAppend(valid, a, b');
    }
  }

  /** Some entry has that id. */
  predicate Offered(valid: seq<StrengthEntry>, id: string) {
    exists e | e in valid :: e.id == id
  }

  /** When every selected id names an offered strength, the summary has one
      label per selected id. */
  lemma {:induction false} SelectedLabelsAllFound(valid: seq<StrengthEntry>, selected: seq<string>)
    requires forall e | e in valid :: !IsBlank(e.value)
    requires forall i :: 0 <= i < |selected| ==> Offered(valid, selected[i])
    ensures |SelectedLabels(valid, selected)| == |selected|
  {
    if selected != [] {
      var init := selected[..|selected| - 1];
      forall i | 0 <= i < |init| ensures Offered(valid, init[i]) {
        assert init[i] == selected[i];
      }
      assert Offered(valid, selected[|selected| - 1]);
      SelectedLabelsAllFound(valid, init);
      var last := FindById(valid, selected[|selected| - 1]);
      assert last.Some?;
    }
  }

  /** When every selected id names an offered strength, label `i` of the
      summary is the label of the strength selected `i`-th. */
  lemma {:induction false} SelectedLabelsAt(valid: seq<StrengthEntry>, selected: seq<string>, i: nat)
    requires forall e | e in valid :: !IsBlank(e.value)
    requires forall j :: 0 <= j < |selected| ==> Offered(valid, selected[j])
    requires i < |selected|
    ensures FindById(valid, selected[i]).Some?
    ensures |SelectedLabels(valid, selected)| == |selected|
    ensures SelectedLabels(valid, selected)[i] == StrengthLabel(FindById(valid, selected[i]).value)
  {
    var init := selected[..|selected| - 1];
    forall j | 0 <= j < |init| ensures Offered(valid, init[j]) {
      assert init[j] == selected[j];
    }
    SelectedLabelsSnoc(valid, selected);
    var rest := SelectedLabels(valid, init);
    var labels := SelectedLabels(valid, selected);
    if i < |init| {
      assert init[i] == selected[i];
      SelectedLabelsAt(valid, init, i);
      assert labels[i] == rest[i];
      assert rest[i] == StrengthLabel(FindById(valid, selected[i]).value);
    } else {
      SelectedLabelsAllFound(valid, init);
      assert i == |selected| - 1 && |rest| == i;
      assert labels[i] == StrengthLabel(FindById(valid, selected[|selected| - 1]).value);
    }
  }

  /** A last selected id that names an offered strength adds that strength's
      label at the end. */
  lemma SelectedLabelsSnoc(valid: seq<StrengthEntry>, selected: seq<string>)
    requires forall e | e in valid :: !IsBlank(e.value)
    requires selected != [] && Offered(valid, selected[|selected| - 1])
    ensures FindById(valid, selected[|selected| - 1]).Some?
    ensures SelectedLabels(valid, selected)
      == SelectedLabels(valid, selected[..|selected| - 1]) + [StrengthLabel(FindById(valid, selected[|selected| - 1]).value)]
  {
    var last := FindById(valid, selected[|selected| - 1]);
    FilledLabelNotEmpty(last.value);
  }

  /** A strength with a filled-in value has a non-empty label. */
  lemma FilledLabelNotEmpty(e: StrengthEntry)
    requires !IsBlank(e.value)
    ensures StrengthLabel(e) != ""
  {
    assert Trim("") == [];
  }

  /** The flexible summary line after "When logging, you'll choose from: ":
      empty exactly when no selected id names an offered strength. */
  function FlexibleSummary(strengths: seq<StrengthEntry>, selected: seq<string>): (r: string)
    ensures r == "" <==> SelectedLabels(ValidStrengths(strengths), selected) == []
    ensures selected == [] ==> r == ""
  {
    var labels := SelectedLabels(ValidStrengths(strengths), selected);
    JoinEmpty(labels, ", ");
    assert |labels| == 1 ==> labels[0] in labels;
    Join(labels, ", ")
  }

  /** Label `i` of the summary sits, unchanged, at the place of part `i`. */
  lemma FlexibleSummaryPart(strengths: seq<StrengthEntry>, selected: seq<string>, i: nat)
    requires i < |SelectedLabels(ValidStrengths(strengths), selected)|
    ensures var labels := SelectedLabels(ValidStrengths(strengths), selected);
      var at := JoinOffset(labels, ", ", i);
      at + |labels[i]| <= |FlexibleSummary(strengths, selected)|
      && FlexibleSummary(strengths, selected)[at..at + |labels[i]|] == labels[i]
  {
    var labels := SelectedLabels(ValidStrengths(strengths), selected);
    assert FlexibleSummary(strengths, selected) == Join(labels, ", ");
    JoinContainsPart(labels, ", ", i);
  }

  /** With every selected id offered, the summary holds one label per
      selected id: the label of the strength selected `i`-th sits at the place
      of part `i`, and the next one follows after ", ". */
  lemma FlexibleSummaryListsSelection(strengths: seq<StrengthEntry>, selected: seq<string>, i: nat)
    requires forall j :: 0 <= j < |selected| ==> Offered(ValidStrengths(strengths), selected[j])
    requires i < |selected|
    ensures |SelectedLabels(ValidStrengths(strengths), selected)| == |selected|
    ensures FindById(ValidStrengths(strengths), selected[i]).Some?
      && SelectedLabels(ValidStrengths(strengths), selected)[i]
         == StrengthLabel(FindById(ValidStrengths(strengths), selected[i]).value)
    ensures var labels := SelectedLabels(ValidStrengths(strengths), selected);
      var at := JoinOffset(labels, ", ", i);
      at + |labels[i]| <= |FlexibleSummary(strengths, selected)|
      && FlexibleSummary(strengths, selected)[at..at + |labels[i]|] == labels[i]
    ensures var labels := SelectedLabels(ValidStrengths(strengths), selected);
      i + 1 < |selected| ==> JoinOffset(labels, ", ", i + 1) == JoinOffset(labels, ", ", i) + |labels[i]| + 2
  {
    var labels := SelectedLabels(ValidStrengths(strengths), selected);
    SelectedLabelsAt(ValidStrengths(strengths), selected, i);
    FlexibleSummaryPart(strengths, selected, i);
    if i + 1 < |selected| {
      JoinOrder(labels, ", ", i);
    }
  }

  /** The quantity row shows exactly for fixed dosing with a selection; the
      summary line exactly for flexible dosing with a selection. */
  function ShowQuantity(d: ExtendedFormData): (b: bool)
    ensures b <==> d.dosingType == Fixed && d.selectedStrengths != []
  {
    d.dosingType == Fixed && |d.selectedStrengths| > 0
  }

  function ShowFlexibleSummary(d: ExtendedFormData): (b: bool)
    ensures b <==> d.dosingType == Flexible && d.selectedStrengths != []
  {
    d.dosingType == Flexible && |d.selectedStrengths| > 0
  }

  /** Right after a dosing-type button neither row shows. */
  lemma ChooseDosingTypeHidesRows(d: ExtendedFormData, t: DosingType)
    ensures !ShowQuantity(ChooseDosingType(d, t)) && !ShowFlexibleSummary(ChooseDosingType(d, t))
  {
  }
}
