/** The pill box page: the list of medications with swipe-to-delete, the
    medications the add-medication flow saves, the low-stock names handed to
    the banner, the count under the title and the empty state. */
module PillBoxPage {
  import opened Base
  import opened Text
  import opened MedicationTypes
  import opened LowStockWarning

  /** `medications.filter(m => m.hasLowStock).map(m => m.name)` */
  function LowStockMeds(meds: seq<MedicationGroup>): (r: seq<string>)
    ensures |r| <= |meds|
    ensures forall n | n in r :: exists m | m in meds :: m.hasLowStock && m.name == n
    ensures forall m | m in meds && m.hasLowStock :: m.name in r
  {
    if meds == [] then []
    else
      var rest := LowStockMeds(meds[1..]);
      assert forall m | m in meds[1..] :: m in meds;
      assert forall m | m in meds && m != meds[0] :: m in meds[1..];
      if meds[0].hasLowStock then [meds[0].name] + rest else rest
  }

  /** The projection distributes over concatenation, so names keep the order
      of the list. */
  lemma {:induction false} LowStockMedsAppend(xs: seq<MedicationGroup>, ys: seq<MedicationGroup>)
    ensures LowStockMeds(xs + ys) == LowStockMeds(xs) + LowStockMeds(ys)
  {
    if xs == [] {
      assert xs + ys == ys;
    } else {
      assert (xs + ys)[1..] == xs[1..] + ys;
      LowStockMedsAppend(xs[1..], ys);
    }
  }

  /** `handleDelete`: every medication with that id removed, the rest in order. */
  function DeleteById(meds: seq<MedicationGroup>, id: string): (r: seq<MedicationGroup>)
    ensures |r| <= |meds|
    ensures forall m :: m in r <==> m in meds && m.id != id
  {
    if meds == [] then []
    else if meds[0].id == id then DeleteById(meds[1..], id)
    else [meds[0]] + DeleteById(meds[1..], id)
  }

  /** Deleting distributes over concatenation, so survivors keep their order. */
  lemma {:induction false} DeleteByIdAppend(xs: seq<MedicationGroup>, ys: seq<MedicationGroup>, id: string)
    ensures DeleteById(xs + ys, id) == DeleteById(xs, id) + DeleteById(ys, id)
  {
    if xs == [] {
      assert xs + ys == ys;
    } else {
      assert (xs + ys)[1..] == xs[1..] + ys;
      DeleteByIdAppend(xs[1..], ys, id);
    }
  }

  /** Deleting an id that is not there changes nothing. */
  lemma {:induction false} DeleteByIdAbsent(xs: seq<MedicationGroup>, id: string)
    requires forall m | m in xs :: m.id != id
    ensures DeleteById(xs, id) == xs
  {
    if xs != [] {
      assert xs[0] in xs;
      assert forall m | m in xs[1..] :: m in xs;
      DeleteByIdAbsent(xs[1..], id);
      assert xs == [xs[0]] + xs[1..];
    }
  }

  /** Deleting twice is deleting once. */
  lemma DeleteByIdTwice(xs: seq<MedicationGroup>, id: string)
    ensures DeleteById(DeleteById(xs, id), id) == DeleteById(xs, id)
  {
    DeleteByIdAbsent(DeleteById(xs, id), id);
  }

  /** A medication saved by the flow, with the id drawn for it. */
  function WithId(draft: MedicationDraft, freshId: string): (m: MedicationGroup)
    ensures m.id == freshId && m.name == draft.name && m.strengths == draft.strengths
    ensures m.form == draft.form && m.totalStock == draft.totalStock
    ensures m.hasLowStock == draft.hasLowStock && m.color == draft.color
  {
    MedicationGroup(freshId, draft.name, draft.strengths, draft.form, draft.totalStock, draft.hasLowStock, draft.color)
  }

  /** `handleSaveMedication`: the new medication appended. */
  function SaveMedication(meds: seq<MedicationGroup>, draft: MedicationDraft, freshId: string): (r: seq<MedicationGroup>)
    ensures |r| == |meds| + 1
    ensures r[..|meds|] == meds
    ensures r[|meds|] == WithId(draft, freshId)
  {
    meds + [WithId(draft, freshId)]
  }

  /** The flow saves medications that are not low on stock, so saving one
      leaves the banner as it was; deleting the saved one with its fresh id
      gives the list back. */
  lemma SaveThenDelete(meds: seq<MedicationGroup>, draft: MedicationDraft, freshId: string)
    requires !draft.hasLowStock
    requires forall m | m in meds :: m.id != freshId
    ensures LowStockMeds(SaveMedication(meds, draft, freshId)) == LowStockMeds(meds)
    ensures DeleteById(SaveMedication(meds, draft, freshId), freshId) == meds
  {
    var m := WithId(draft, freshId);
    LowStockMedsAppend(meds, [m]);
    assert LowStockMeds([m]) == [];
    DeleteByIdAppend(meds, [m], freshId);
    DeleteByIdAbsent(meds, freshId);
    assert DeleteById([m], freshId) == [];
  }

  /** The banner shows exactly when some medication is low on stock. */
  lemma BannerShowsIffLowStock(meds: seq<MedicationGroup>)
    ensures Message(LowStockMeds(meds)).Some? <==> exists m | m in meds :: m.hasLowStock
  {
    var names := LowStockMeds(meds);
    if names != [] {
      assert names[0] in names;
    }
  }

  /** The count under the title: "1 medication", otherwise the number and
      "medications". */
  function CountLabel(n: nat): (r: string)
    ensures r == NatToString(n) + " medication" || r == NatToString(n) + " medications"
    ensures r[|r| - 1] == 's' <==> n != 1
  {
    NatToString(n) + " medication" + (if n != 1 then "s" else "")
  }

  /** The empty state replaces the list exactly when there is no medication. */
  function ShowEmptyState(meds: seq<MedicationGroup>): (b: bool)
    ensures b <==> meds == []
  {
    |meds| == 0
  }

  class PillBox {
    var medications: seq<MedicationGroup>
    var isAddFlowOpen: bool

    constructor (initial: seq<MedicationGroup>)
      ensures medications == initial && !isAddFlowOpen
    {
      medications := initial;
      isAddFlowOpen := false;
    }

    /** The delete button of one card. */
    method Delete(id: string)
      modifies this
      ensures medications == DeleteById(old(medications), id)
      ensures isAddFlowOpen == old(isAddFlowOpen)
    {
      medications := DeleteById(medications, id);
    }

    /** The + button. */
    method OpenAddFlow()
      modifies this
      ensures isAddFlowOpen && medications == old(medications)
    {
      isAddFlowOpen := true;
    }

    /** The flow reports it opened or closed. */
    method SetAddFlowOpen(open: bool)
      modifies this
      ensures isAddFlowOpen == open && medications == old(medications)
    {
      isAddFlowOpen := open;
    }

    /** The flow saves a medication; `freshId` stands for the random id. */
    method Save(draft: MedicationDraft, freshId: string)
      modifies this
      ensures medications == SaveMedication(old(medications), draft, freshId)
      ensures isAddFlowOpen == old(isAddFlowOpen)
      ensures !draft.hasLowStock ==> LowStockMeds(medications) == LowStockMeds(old(medications))
    {
      if !draft.hasLowStock {
        LowStockMedsAppend(medications, [WithId(draft, freshId)]);
      }
      medications := SaveMedication(medications, draft, freshId);
    }
  }
}
