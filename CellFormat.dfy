/**
 * How one grid cell turns a raw value from the database into the text shown
 * in the grid, the untruncated text handed to the cell inspector, and the
 * hover tooltip (`formatCellValue` and the cell's click and title rules).
 */
module CellFormat {
  import opened Common

  /** A value as sql.js hands it to the grid; `Obj` stands for any object
      (a BLOB array, a JSON-like object) and carries an opaque handle. */
  datatype RawValue = Null | Bool(b: bool) | Num(n: int) | Str(s: string) | Obj(handle: nat)

  /**
   * The JavaScript conversions the formatter relies on but whose output the
   * model does not interpret: `String(n)` of a number, `String(o)` of an
   * object, and `JSON.stringify(o, null, 2)`, which is `None` when it throws
   * or yields `undefined`.
   */
  datatype Conversions = Conversions(
    numberText: int -> string,
    objectText: nat -> string,
    objectJson: nat -> Option<string>)

  /** A UTF-16 code unit: JavaScript strings, their `length` and `substring`
      count these, not characters. */
  type CodeUnit = x: int | 0 <= x < 0x1_0000

  /** The code units of one character: itself below U+10000, otherwise a
      high and a low surrogate. */
  function UnitsOf(c: char): (u: seq<CodeUnit>)
    ensures |u| == if (c as int) < 0x1_0000 then 1 else 2
    ensures (c as int) < 0x1_0000 ==> u[0] == c as int
    ensures (c as int) >= 0x1_0000 ==> 0xD800 <= u[0] < 0xDC00 <= u[1] < 0xE000
  {
    var v := c as int;
    if v < 0x1_0000 then [v]
    else [0xD800 + (v - 0x1_0000) / 0x400, 0xDC00 + (v - 0x1_0000) % 0x400]
  }

  /** A string as JavaScript stores it. Characters below U+10000 take one
      unit each and all others two, so the length lies between the number of
      characters and twice that. */
  function Utf16(s: string): (u: seq<CodeUnit>)
    ensures |s| <= |u| <= 2 * |s|
    ensures (forall i :: 0 <= i < |s| ==> (s[i] as int) < 0x1_0000) ==> |u| == |s|
    ensures (forall i :: 0 <= i < |s| ==> (s[i] as int) >= 0x1_0000) ==> |u| == 2 * |s|
    decreases |s|
  {
    if |s| == 0 then []
    else
      var rest := Utf16(s[1..]);
      assert forall i :: 0 <= i < |s[1..]| ==> s[1..][i] == s[i + 1];
      UnitsOf(s[0]) + rest
  }

  /** Text made only of characters below U+10000 is stored one unit per
      character, each unit the character's code. */
  lemma {:induction false} BasicPlaneTextIsOneUnitPerChar(s: string)
    requires forall i :: 0 <= i < |s| ==> (s[i] as int) < 0x1_0000
    ensures |Utf16(s)| == |s|
    ensures forall i :: 0 <= i < |s| ==> Utf16(s)[i] == s[i] as int
    decreases |s|
  {
    if |s| > 0 {
      assert forall i :: 0 <= i < |s[1..]| ==> s[1..][i] == s[i + 1];
      BasicPlaneTextIsOneUnitPerChar(s[1..]);
      assert Utf16(s) == [s[0] as int] + Utf16(s[1..]);
    }
  }

  /** What the cell paints: the grey NULL marker or a text, in code units. */
  datatype Display = NullMarker | Text(text: seq<CodeUnit>)

  datatype CellView = CellView(display: Display, isTruncated: bool, fullValue: string)

  /** `CELL_TRUNCATE_LENGTH`, also the default of `truncateLength`. */
  const CellTruncateLength: int := 100

  /** `String(value)` for a value that is not null. */
  function ToText(v: RawValue, conv: Conversions): string
  {
    match v
    case Null => "null"
    case Bool(b) => if b then "true" else "false"
    case Num(n) => conv.numberText(n)
    case Str(s) => s
    case Obj(h) => conv.objectText(h)
  }

  /** The untruncated text of a non-null value: indented JSON for objects,
      falling back to `String(value)` when serialisation fails. */
  function FullText(v: RawValue, conv: Conversions): string
  {
    match v
    case Obj(h) => (match conv.objectJson(h) case Some(json) => json case None => conv.objectText(h))
    case _ => ToText(v, conv)
  }

  /** How `Array.prototype.join` writes one element: `null` and `undefined`
      become the empty string, everything else its `String(...)` form. */
  function JoinText(v: RawValue, conv: Conversions): (t: string)
    ensures v.Null? ==> t == ""
    ensures v.Str? ==> t == v.s
    ensures v.Bool? ==> t == (if v.b then "true" else "false")
    ensures v.Num? ==> t == conv.numberText(v.n)
    ensures v.Obj? ==> t == conv.objectText(v.handle)
  {
    if v.Null? then "" else ToText(v, conv)
  }

  /** `row[i]`: an index past either end reads `undefined`, which the model
      folds into `Null`. */
  function CellAt(row: seq<RawValue>, i: int): (v: RawValue)
    ensures 0 <= i < |row| ==> v == row[i]
    ensures !(0 <= i < |row|) ==> v == Null
  {
    if 0 <= i < |row| then row[i] else Null
  }

  /** JavaScript's `s.substring(0, n)` for an `n` below `s.length`: the first
      `n` code units (a surrogate pair may be cut), none for a negative `n`. */
  function Prefix(u: seq<CodeUnit>, n: int): (p: seq<CodeUnit>)
    requires n < |u|
    ensures |p| == if n < 0 then 0 else n
    ensures p <= u
  {
    if n < 0 then [] else u[..n]
  }

  /** The one truncation rule every non-null branch applies to its string,
      measured in code units as `length` and `substring` measure it. */
  function Truncate(s: string, truncateLength: int): (r: CellView)
    ensures r.fullValue == s
    ensures r.isTruncated <==> |Utf16(s)| > truncateLength
    ensures r.display.Text?
    ensures !r.isTruncated ==> r.display.text == Utf16(s)
    ensures r.isTruncated ==> |r.display.text| >= 3 && r.display.text[|r.display.text| - 3..] == Utf16("...")
    ensures r.isTruncated && truncateLength >= 0 ==>
      |r.display.text| == truncateLength + 3 &&
      r.display.text == Utf16(s)[..truncateLength] + Utf16("...")
  {
    var u := Utf16(s);
    if |u| > truncateLength then
      var dots := Utf16("...");
      assert |dots| == 3;
      var t := Prefix(u, truncateLength) + dots;
      assert t[|t| - 3..] == dots;
      CellView(Text(t), true, s)
    else CellView(Text(u), false, s)
  }

  /** `formatCellValue(value, truncateLength)`. */
  function FormatCellValue(v: RawValue, truncateLength: int, conv: Conversions): (r: CellView)
    ensures v.Null? ==> r == CellView(NullMarker, false, "NULL")
    ensures !v.Null? ==> r.fullValue == FullText(v, conv) && r.display.Text?
    ensures !v.Null? ==> (r.isTruncated <==> |Utf16(r.fullValue)| > truncateLength)
    ensures r.isTruncated ==>
      !v.Null? && |r.display.text| >= 3 && r.display.text[|r.display.text| - 3..] == Utf16("...")
    ensures r.isTruncated && truncateLength >= 0 ==>
      |r.display.text| == truncateLength + 3 &&
      r.display.text == Utf16(r.fullValue)[..truncateLength] + Utf16("...")
    ensures !r.isTruncated && !v.Null? ==> r.display.text == Utf16(r.fullValue)
    ensures v.Str? ==> r.fullValue == v.s
  {
    if v.Null? then CellView(NullMarker, false, "NULL")
    else Truncate(FullText(v, conv), truncateLength)
  }

  /** The cell renders with the default length. */
  function CellDisplay(v: RawValue, conv: Conversions): (r: CellView)
    ensures r == FormatCellValue(v, CellTruncateLength, conv)
    ensures v.Str? && |Utf16(v.s)| <= CellTruncateLength ==> r.display == Text(Utf16(v.s)) && !r.isTruncated
    ensures v.Str? && |Utf16(v.s)| > CellTruncateLength ==>
      r.isTruncated && r.display == Text(Utf16(v.s)[..CellTruncateLength] + Utf16("..."))
  {
    FormatCellValue(v, CellTruncateLength, conv)
  }

  /** What a click reports to the inspector: the full value and the column name. */
  datatype CellClick = CellClick(content: string, columnName: string)

  function ClickReport(v: RawValue, columnName: string, conv: Conversions): (r: CellClick)
    ensures r.columnName == columnName
    ensures v.Null? ==> r.content == "NULL"
    ensures v.Str? ==> r.content == v.s
    ensures !v.Null? ==> r.content == FullText(v, conv)
  {
    CellClick(CellDisplay(v, conv).fullValue, columnName)
  }

  /** The cell's `title`: set only for string cells longer than the default
      length, counted in code units. */
  function Tooltip(v: RawValue): (r: Option<string>)
    ensures r.Some? <==> v.Str? && |Utf16(v.s)| > CellTruncateLength
    ensures r.Some? ==> r.value == v.s
  {
    if v.Str? && |Utf16(v.s)| > CellTruncateLength then Some(v.s) else None
  }

  /** A string cell shows a tooltip exactly when the grid truncates it, and the
      tooltip then carries the untruncated string. */
  lemma TooltipExactlyWhenStringTruncated(s: string, conv: Conversions)
    ensures Tooltip(Str(s)).Some? <==> CellDisplay(Str(s), conv).isTruncated
    ensures Tooltip(Str(s)).Some? ==> Tooltip(Str(s)).value == CellDisplay(Str(s), conv).fullValue
  {
  }

  /** Sixty characters outside the Basic Multilingual Plane take 120 code
      units: the cell is truncated and gets a tooltip, although the text has
      fewer than 100 characters. */
  lemma SupplementaryCharactersCountTwice(s: string, conv: Conversions)
    requires |s| == 60
    requires forall i :: 0 <= i < |s| ==> (s[i] as int) >= 0x1_0000
    ensures CellDisplay(Str(s), conv).isTruncated
    ensures Tooltip(Str(s)) == Some(s)
  {
  }
}
