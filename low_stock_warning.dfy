/** The pill box's low-stock banner: nothing for no names, otherwise one
    sentence naming every low medication. */
module LowStockWarning {
  import opened Base
  import opened Text

  /** The sentence under "Low Stock Alert", or nothing when no medication is
      low: one name is "running low" on its own; several are listed with
      commas and an "and" before the last. */
  function Message(names: seq<string>): (r: Option<string>)
    ensures r.None? <==> names == []
    ensures |names| == 1 ==> r == Some(names[0] + " is running low")
    ensures |names| >= 2 ==>
      r == Some(Join(names[..|names| - 1], ", ") + " and " + names[|names| - 1] + " are running low")
  {
    if |names| == 0 then None
    else if |names| == 1 then Some(names[0] + " is running low")
    else Some(Join(names[..|names| - 1], ", ") + " and " + names[|names| - 1] + " are running low")
  }

  /** Where name `i` starts in the sentence. */
  function NameOffset(names: seq<string>, i: nat): nat
    requires i < |names|
  {
    if i < |names| - 1 then JoinOffset(names[..|names| - 1], ", ", i)
    else if |names| == 1 then 0
    else |Join(names[..|names| - 1], ", ")| + |" and "|
  }

  /** Every name occurs, unchanged, at its offset in the sentence. */
  lemma MessageContainsName(names: seq<string>, i: nat)
    requires i < |names|
    ensures NameOffset(names, i) + |names[i]| <= |Message(names).value|
    ensures Message(names).value[NameOffset(names, i)..NameOffset(names, i) + |names[i]|] == names[i]
  {
    var n := |names|;
    var msg := Message(names).value;
    if n == 1 {
      assert msg == names[0] + " is running low";
    } else {
      var init := names[..n - 1];
      var head := Join(init, ", ");
      assert msg == head + " and " + names[n - 1] + " are running low";
      if i < n - 1 {
        JoinContainsPart(init, ", ", i);
        assert init[i] == names[i];
        assert msg[..|head|] == head;
      } else {
        var k := |head| + |" and "|;
        assert msg[k..k + |names[i]|] == names[n - 1];
      }
    }
  }

  /** The names appear in input order: each one ends before the next one
      starts, with at least a separator between them. */
  lemma MessageKeepsOrder(names: seq<string>, i: nat)
    requires i + 1 < |names|
    ensures NameOffset(names, i) + |names[i]| + 2 <= NameOffset(names, i + 1)
  {
    var n := |names|;
    var init := names[..n - 1];
    assert init[i] == names[i];
    if i + 1 < n - 1 {
      JoinOrder(init, ", ", i);
    } else {
      // `i` is the last name before " and ": it ends where the joined prefix ends.
      JoinContainsPart(init, ", ", i);
      if i > 0 {
        JoinSplit(init, ", ", i);
        assert init[i..] == [init[i]];
      }
    }
  }

  /** One name ends the sentence with "is running low", several with "are
      running low". */
  lemma MessageEnding(names: seq<string>)
    requires names != []
    ensures var msg := Message(names).value;
      var ending := if |names| == 1 then " is running low" else " are running low";
      |ending| <= |msg| && msg[|msg| - |ending|..] == ending
  {
  }
}
