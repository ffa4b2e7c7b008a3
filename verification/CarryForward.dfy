/** `carry_forward` and its use on a whole table: blank cells take the value above them. */
module CarryForward {
  import opened Whitespace

  const DITTO_MARKS: set<string> := {"\"", "''", "\U{201C}", "\U{201D}", "-"}

  // A cell's own value: trimmed, and nothing at all for a ditto mark.
  function Cleaned(value: string): string {
    if Strip(value) in DITTO_MARKS then "" else Strip(value)
  }

  // A cell has no value exactly when it is blank or holds a ditto mark between blanks; else its value
  // is its text without the blanks around it.
  lemma CleanedExactly(value: string) returns (before: string, text: string, after: string)
    ensures value == before + text + after && AllSpace(before) && AllSpace(after)
    ensures text != "" ==> !IsSpace(text[0]) && !IsSpace(text[|text| - 1])
    ensures Cleaned(value) == if text in ["\"", "''", "\U{201C}", "\U{201D}", "-"] then "" else text
  {
    before, after := StripExactly(value);
    text := Strip(value);
  }

  // The value of the nearest cell at or above that has one.
  function NearestAbove(values: seq<string>, i: nat): string
    requires i < |values|
  {
    if Cleaned(values[i]) != "" then Cleaned(values[i])
    else if i == 0 then "" else NearestAbove(values, i - 1)
  }

  method CarryForward(values: seq<string>) returns (filled: seq<string>)
    ensures filled == Filled(values)
  {
    hide Cleaned;
    filled := [];
    var last := "";
    for i := 0 to |values|
      invariant |filled| == i && forall j :: 0 <= j < i ==> filled[j] == NearestAbove(values, j)
      invariant last == if i == 0 then "" else NearestAbove(values, i - 1)
    {
      var cleaned := Cleaned(values[i]);
      if cleaned != "" { last := cleaned; }
      filled := filled + [last];
    }
  }

  function Filled(values: seq<string>): (filled: seq<string>)
    ensures |filled| == |values|
  {
    seq(|values|, i requires 0 <= i < |values| => NearestAbove(values, i))
  }

  // The value shown in row `i` is that of row `j`.
  predicate TakenFrom(values: seq<string>, i: nat, j: nat)
    requires j <= i < |values|
  {
    NearestAbove(values, i) == Cleaned(values[j]) && forall k :: j < k <= i ==> Cleaned(values[k]) == ""
  }

  // Which cell that is: everything below it, down to the asking cell, is blank.
  lemma {:induction false} NearestAboveIs(values: seq<string>, i: nat)
    requires i < |values|
    ensures NearestAbove(values, i) != "" ==> exists j :: 0 <= j <= i && TakenFrom(values, i, j)
    ensures NearestAbove(values, i) == "" <==> forall k :: 0 <= k <= i ==> Cleaned(values[k]) == ""
  {
    hide Cleaned;
    if Cleaned(values[i]) != "" {
      assert TakenFrom(values, i, i);
    } else if i > 0 {
      NearestAboveIs(values, i - 1);
      if NearestAbove(values, i) != "" {
        var j :| 0 <= j <= i - 1 && TakenFrom(values, i - 1, j);
        assert TakenFrom(values, i, j);
      }
    }
  }

  lemma {:induction false} StripLeftTwice(s: string)
    ensures StripLeft(StripLeft(s)) == StripLeft(s)
    ensures StripLeft(s) != "" ==> !IsSpace(StripLeft(s)[0])
  {
    if s != [] && IsSpace(s[0]) {
      StripLeftTwice(s[1..]);
    }
  }

  lemma {:induction false} StripRightTwice(s: string)
    ensures StripRight(StripRight(s)) == StripRight(s)
    ensures StripRight(s) <= s
  {
    if s != [] && IsSpace(s[|s| - 1]) {
      StripRightTwice(s[..|s| - 1]);
    }
  }

  lemma StripTwice(s: string)
    ensures Strip(Strip(s)) == Strip(s)
  {
    StripLeftTwice(s);
    StripRightTwice(StripLeft(s));
    assert Strip(s) != "" ==> Strip(s)[0] == StripLeft(s)[0];
  }

  lemma CleanedTwice(value: string)
    ensures Cleaned(Cleaned(value)) == Cleaned(value)
  {
    StripTwice(value);
    assert Strip("") == "";
  }

  lemma {:induction false} NearestIsClean(values: seq<string>, i: nat)
    requires i < |values|
    ensures Cleaned(NearestAbove(values, i)) == NearestAbove(values, i)
  {
    hide Cleaned;
    CleanedTwice(values[i]);
    if Cleaned(values[i]) == "" && i > 0 {
      NearestIsClean(values, i - 1);
    }
  }

  // Filling a filled column changes nothing.
  lemma FilledTwice(values: seq<string>)
    ensures Filled(Filled(values)) == Filled(values)
  {
    forall i | 0 <= i < |values| ensures NearestAbove(Filled(values), i) == NearestAbove(values, i) {
      NearestInFilled(values, i);
    }
  }

  lemma {:induction false} NearestInFilled(values: seq<string>, i: nat)
    requires i < |values|
    ensures NearestAbove(Filled(values), i) == NearestAbove(values, i)
  {
    hide Cleaned;
    NearestIsClean(values, i);
    if NearestAbove(values, i) == "" && i > 0 {
      NearestInFilled(values, i - 1);
    }
  }

  // --- tables ---

  function CellAt(body: seq<seq<string>>, r: nat, c: nat): string
    requires r < |body|
  {
    if c < |body[r]| then body[r][c] else ""
  }

  function Column(body: seq<seq<string>>, c: nat): (column: seq<string>)
    ensures |column| == |body|
  {
    seq(|body|, r requires 0 <= r < |body| => CellAt(body, r, c))
  }

  predicate IsWidth(body: seq<seq<string>>, width: nat) {
    && (forall row :: row in body ==> |row| <= width)
    && (body != [] ==> exists row :: row in body && |row| == width)
  }

  // Every row padded to the widest, every column filled. A table without any cell loses its rows.
  ghost predicate IsFilledBody(body: seq<seq<string>>, filled: seq<seq<string>>) {
    exists width :: IsWidth(body, width) && FilledTo(body, width, filled)
  }

  ghost predicate FilledTo(body: seq<seq<string>>, width: nat, filled: seq<seq<string>>) {
    if width == 0 then filled == []
    else
      && |filled| == |body|
      && forall r :: 0 <= r < |body| ==>
           |filled[r]| == width && forall c :: 0 <= c < width ==> filled[r][c] == NearestAbove(Column(body, c), r)
  }

  method Width(body: seq<seq<string>>) returns (width: nat)
    ensures IsWidth(body, width)
  {
    width := 0;
    if body == [] { return; }
    width := |body[0]|;
    assert body[0] in body;
    for r := 0 to |body|
      invariant forall q :: 0 <= q < r ==> |body[q]| <= width
      invariant exists row :: row in body && |row| == width
    {
      if |body[r]| > width { width := |body[r]|; assert body[r] in body; }
    }
  }

  // Pad, transpose, fill each column, transpose back.
  method FillDown(body: seq<seq<string>>) returns (filled: seq<seq<string>>)
    ensures IsFilledBody(body, filled)
  {
    hide NearestAbove;
    var width := Width(body);
    var columns: seq<seq<string>> := [];
    for c := 0 to width
      invariant |columns| == c && forall d :: 0 <= d < c ==> columns[d] == Filled(Column(body, d))
    {
      var column := CarryForward(Column(body, c));
      columns := columns + [column];
    }
    filled := [];
    if columns != [] {
      filled := seq(|body|, r requires 0 <= r < |body| => seq(width, c requires 0 <= c < width => columns[c][r]));
    }
    assert FilledTo(body, width, filled);
  }

  // Filling down twice is filling down once.
  lemma FillDownTwice(body: seq<seq<string>>, once: seq<seq<string>>, twice: seq<seq<string>>)
    requires IsFilledBody(body, once) && IsFilledBody(once, twice)
    ensures twice == once
  {
    hide NearestAbove;
    var width :| IsWidth(body, width) && FilledTo(body, width, once);
    var width' :| IsWidth(once, width') && FilledTo(once, width', twice);
    if once == [] {
      assert twice == [];
    } else {
      assert |once[0]| == width && once[0] in once;
      assert width' == width;
      forall r, c | 0 <= r < |once| && 0 <= c < width ensures twice[r][c] == once[r][c] {
        ColumnFilled(body, width, once, c);
        NearestInFilled(Column(body, c), r);
      }
      assert forall r :: 0 <= r < |once| ==> twice[r] == once[r];
    }
  }

  lemma ColumnFilled(body: seq<seq<string>>, width: nat, once: seq<seq<string>>, c: nat)
    requires width > 0 && FilledTo(body, width, once) && c < width
    ensures Column(once, c) == Filled(Column(body, c))
  {
    hide NearestAbove;
  }
}
