/** Concrete cases of the checklist derivations and of the search failure on a `null` category. */
module ChecklistExamples {
  import opened Wrappers
  import opened Text
  import opened Items
  import opened Checklist

  const Chair := Item("1", "Kursi", 2, Some("Furniture"), Medium, None, 10000, None, None, false)
  const Table := Item("2", "Meja", 1, Some("Furniture"), Medium, None, 5000, None, None, true)

  /** Searching "kursi" among pending items lists the chair alone. */
  lemma SearchAndStatusExample()
    ensures Filtered([Chair, Table], "kursi", "", Pending) == [Chair]
  {
    assert Keep(Chair, "kursi", "", Pending) by {
      assert LowerStr("Kursi") == "kursi";
      assert LowerStr("kursi") == "kursi";
      assert "kursi"[..5] == "kursi";
      assert StartsWith("kursi", "kursi");
      assert Contains(LowerStr(Chair.name), LowerStr("kursi"));
      assert MatchesSearch(Chair, "kursi");
    }
    assert !MatchesStatus(Table, Pending);
    assert [Chair, Table][1..] == [Table];
    assert Filtered([Table], "kursi", "", Pending) == [] by {
      assert [Table][1..] == [];
    }
  }

  /** 2 x 10000 + 1 x 5000 in all, 5000 of it done, 20000 remaining. */
  lemma CostExample()
    ensures TotalCost([Chair, Table]) == 25000
    ensures CompletedCost([Chair, Table]) == 5000
    ensures RemainingCost([Chair, Table]) == 20000
  {
    assert [Chair, Table][1..] == [Table];
    assert [Table][1..] == [];
    assert DoneItems([Chair, Table]) == [Table];
    assert TotalCost([Table]) == 5000;
  }

  /** One of three done shows 33%; an empty list shows 0%. */
  lemma PercentExample()
    ensures CompletionPercent([Chair, Chair, Table]) == 33
    ensures CompletionPercent([]) == 0
  {
    assert [Chair, Chair, Table][1..] == [Chair, Table];
    assert [Chair, Table][1..] == [Table];
    assert [Table][1..] == [];
    assert DoneItems([Table]) == [Table];
    assert DoneItems([Chair, Table]) == [Table];
    assert DoneCount([Chair, Chair, Table]) == 1;
  }

  /** A done item is never flagged overdue, however far its due date lies behind. */
  lemma DoneNotOverdue(it: Item, now: int)
    requires it.done
    ensures !Overdue(it, now)
  {
  }

  /** A chair added without a category breaks the search for "meja". */
  lemma SearchFailsExample()
    ensures MatchesSearchAsWritten(Created(AddDraft(Form("Kursi", 1, "", Medium, "", 0, None)).value, "1"), "meja").None?
  {
    var f := Form("Kursi", 1, "", Medium, "", 0, None);
    assert !IsWhite(f.text[0]);
    assert Trim(f.text) == "Kursi" by {
      assert TrimStart("Kursi") == "Kursi";
      assert !IsWhite("Kursi"[4]);
    }
    assert LowerStr("Kursi") == "kursi";
    assert LowerStr("meja") == "meja";
    assert !Contains("kursi", "meja") by {
      assert "kursi"[1..] == "ursi" && "ursi"[1..] == "rsi";
      assert !StartsWith("kursi", "meja") && !StartsWith("ursi", "meja");
      assert !Contains("rsi", "meja") by { NoRoom("rsi", "meja"); }
    }
    SearchFailsOnAddedItem(f, "1", "meja");
  }

  /** A term longer than the text is not in it. */
  lemma {:induction false} NoRoom(s: string, t: string)
    requires |s| < |t|
    ensures !Contains(s, t)
    decreases |s|
  {
    if |s| > 0 {
      NoRoom(s[1..], t);
    }
  }

}
