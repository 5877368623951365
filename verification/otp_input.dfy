/** The one-time-code entry (components/forms/OtpInput.tsx): a row of cells
    holding the typed text, focus movement and the completion callback. */
module OtpInput {
  import opened Wrappers
  import opened Strings

  datatype Focus = FocusNext | FocusPrevious | Stay

  /** What one `handleChange` leaves behind: the cells, where focus moves and
      the code passed to `onComplete`, if it fires. */
  datatype Change = Change(values: seq<string>, focus: Focus, completed: Option<string>)

  /** `Array(length).fill('')`. */
  function InitialValues(length: nat): (v: seq<string>)
    ensures |v| == length
    ensures forall i :: 0 <= i < length ==> v[i] == ""
  {
    seq(length, _ => "")
  }

  /** The number of characters typed into the cells. */
  function CellsLength(values: seq<string>): nat {
    if |values| == 0 then 0 else |values[0]| + CellsLength(values[1..])
  }

  /** `values.join('')`: with the empty separator, the code holds exactly the
      characters typed into the cells. */
  function Assemble(values: seq<string>): (code: string)
    ensures |code| == CellsLength(values)
  {
    JoinEmptyLength(values);
    Join(values, "")
  }

  lemma {:induction false} JoinEmptyLength(values: seq<string>)
    ensures |Join(values, "")| == CellsLength(values)
  {
    if |values| > 1 {
      JoinEmptyLength(values[1..]);
    }
  }

  /** A fresh row is a row of empty cells that passes the cells' own checks
      and assembles to no code at all; typing into it completes only when the
      row has a single cell. */
  lemma {:induction false} InitialRowEmpty(length: nat, digit: char)
    requires IsDigit(digit)
    ensures DigitCells(InitialValues(length)) && SingleCharCells(InitialValues(length))
    ensures Assemble(InitialValues(length)) == ""
    ensures length > 0 ==>
      (HandleChange(InitialValues(length), [digit], 0).completed.Some? <==> length == 1)
  {
    var v := InitialValues(length);
    EmptyCellsAssemble(v);
    if length > 0 {
      var next := HandleChange(v, [digit], 0).values;
      assert SingleCharCells(next);
      AssembleSingles(next);
      if length > 1 {
        assert |next[1]| == 0;
      }
    }
  }

  lemma {:induction false} EmptyCellsAssemble(v: seq<string>)
    requires forall i :: 0 <= i < |v| ==> v[i] == ""
    ensures CellsLength(v) == 0 && Assemble(v) == ""
  {
    if |v| > 0 {
      EmptyCellsAssemble(v[1..]);
    }
  }

  /** Every cell holds only digits: what `handleChange` lets through. */
  predicate DigitCells(values: seq<string>) {
    forall i :: 0 <= i < |values| ==> AllDigits(values[i])
  }

  /** Every cell holds at most one character (the inputs' `maxLength`). */
  predicate SingleCharCells(values: seq<string>) {
    forall i :: 0 <= i < |values| ==> |values[i]| <= 1
  }

  /** `handleChange(text, idx)` on cells `values`; the component's `length` is
      the number of cells. */
  function HandleChange(values: seq<string>, text: string, idx: nat): (r: Change)
    requires idx < |values|
    ensures |r.values| == |values|
    // text with a non-digit is ignored entirely
    ensures !AllDigits(text) ==> r == Change(values, Stay, None)
    // otherwise only cell idx changes
    ensures AllDigits(text) ==> r.values[idx] == text
    ensures forall i :: 0 <= i < |values| && i != idx ==> r.values[i] == values[i]
    ensures DigitCells(values) ==> DigitCells(r.values)
    ensures r.completed.Some? <==> AllDigits(text) && |Assemble(r.values)| == |values|
    ensures r.completed.Some? ==> r.completed.value == Assemble(r.values)
    ensures r.focus == FocusNext <==> AllDigits(text) && text != "" && idx < |values| - 1
    ensures r.focus == FocusPrevious <==> AllDigits(text) && text == "" && idx > 0
  {
    if !AllDigits(text) then Change(values, Stay, None)
    else
      var next := values[idx := text];
      var focus :=
        if text != "" && idx < |values| - 1 then FocusNext
        else if text == "" && idx > 0 then FocusPrevious
        else Stay;
      var assembled := Assemble(next);
      Change(next, focus, if |assembled| == |values| then Some(assembled) else None)
  }

  /** With single-character cells, the assembled code has one character per
      non-empty cell: it is as long as the row exactly when every cell is full. */
  lemma {:induction false} AssembleSingles(values: seq<string>)
    requires SingleCharCells(values)
    ensures |Assemble(values)| <= |values|
    ensures |Assemble(values)| == |values| <==> forall i :: 0 <= i < |values| ==> |values[i]| == 1
  {
    if |values| == 1 {
      assert Assemble(values) == values[0];
    } else if |values| > 1 {
      var tail := values[1..];
      assert SingleCharCells(tail) by {
        forall i | 0 <= i < |tail| ensures |tail[i]| <= 1 {
          assert tail[i] == values[i + 1];
        }
      }
      AssembleSingles(tail);
      assert Assemble(values) == values[0] + Assemble(tail);
      if forall i :: 0 <= i < |tail| ==> |tail[i]| == 1 {
        if |values[0]| == 1 {
          forall i | 0 <= i < |values| ensures |values[i]| == 1 {
            if i > 0 {
              assert values[i] == tail[i - 1];
            }
          }
        }
      } else {
        var i :| 0 <= i < |tail| && |tail[i]| != 1;
        assert values[i + 1] == tail[i];
      }
    }
  }

  /** Clearing a cell of a single-character row never fires `onComplete`. */
  lemma ClearingNeverCompletes(values: seq<string>, idx: nat)
    requires idx < |values|
    requires SingleCharCells(values)
    ensures HandleChange(values, "", idx).completed == None
  {
    var next := HandleChange(values, "", idx).values;
    assert SingleCharCells(next);
    AssembleSingles(next);
    assert |next[idx]| != 1;
  }

  /** Typing the last missing digit into a single-character row completes it
      with a code of digits only. */
  lemma FillingLastCellCompletes(values: seq<string>, digit: char, idx: nat)
    requires idx < |values|
    requires SingleCharCells(values) && DigitCells(values)
    requires IsDigit(digit)
    requires forall i :: 0 <= i < |values| && i != idx ==> |values[i]| == 1
    ensures HandleChange(values, [digit], idx).completed.Some?
  {
    var next := HandleChange(values, [digit], idx).values;
    assert SingleCharCells(next);
    AssembleSingles(next);
  }
}
