/**
 * Where a bed is. Bed ids run 1, 2, 3, ... in blocks of 48 per pavilion; the first
 * 24 beds of a block form sector I and the next 24 sector II. The pavilion label is
 * derived from the id alone and the stored pavilion and label columns are ignored.
 */
module BedLocator {
  import opened Basics
  import opened Text

  datatype Sector = I | II

  function SectorName(s: Sector): string {
    if s == I then "I" else "II"
  }

  /** "Pabellón {w} {sector}" */
  function WardLabel(w: nat, s: Sector): string {
    "Pabellón " + NatToString(w) + " " + SectorName(s)
  }

  /** The first bed id of sector `s` of pavilion `w` (pavilions count from 1). */
  function FirstBed(w: nat, s: Sector): int {
    48 * (w - 1) + (if s == I then 1 else 25)
  }

  /** The pavilion label of a numeric bed id; ids that are not positive are "General". */
  function Locate(id: int): string {
    if id > 0 then
      var globalIndex := id - 1;
      WardLabel(globalIndex / 48 + 1, if globalIndex % 48 < 24 then I else II)
    else "General"
  }

  /** The label shown for a bed, "Cama {id}". */
  function BedLabel(id: int): (r: string)
    ensures "Cama " <= r
  {
    "Cama " + IntToString(id)
  }

  /** An id as it arrives from the store: a number, or text that is parsed with `parseInt(_, 10)`. */
  datatype RawId = NumberId(n: int) | StringId(s: string)

  /** `parseInt(s, 10)`: leading white space is skipped, then a signed run of digits. */
  function ParseIntPrefix(s: string): Option<int> {
    ParseNumber(TrimStart(s))
  }

  /** The pavilion label of a raw id; text without a leading number is NaN and gives "General". */
  function LocateRaw(raw: RawId): string {
    match raw
    case NumberId(n) => Locate(n)
    case StringId(s) =>
      var parsed := ParseIntPrefix(s);
      if parsed.Some? then Locate(parsed.value) else "General"
  }

  /** The bed label of a raw id, which renders the id as it came. */
  function RawBedLabel(raw: RawId): (r: string)
    ensures raw.NumberId? ==> r == BedLabel(raw.n)
  {
    match raw
    case NumberId(n) => BedLabel(n)
    case StringId(s) => "Cama " + s
  }

  // ---- properties ----

  /** Two strings that start with a space-free token agree on that token and on the rest. */
  lemma TokenRestInjective(a: string, c: string, b: string, d: string)
    requires ' ' !in a && ' ' !in b
    requires a + " " + c == b + " " + d
    ensures a == b && c == d
  {
    SplitAfterToken(a, c);
    SplitAfterToken(b, d);
    assert [a] + Split(c) == [b] + Split(d);
    assert a == ([a] + Split(c))[0];
    assert Split(c) == ([a] + Split(c))[1..];
    JoinSplit(c);
    JoinSplit(d);
  }

  /** Different sectors carry different labels. */
  lemma WardLabelInjective(w: nat, s: Sector, w': nat, t: Sector)
    requires WardLabel(w, s) == WardLabel(w', t)
    ensures w == w' && s == t
  {
    var p := "Pabellón ";
    var x := NatToString(w) + " " + SectorName(s);
    var y := NatToString(w') + " " + SectorName(t);
    assert WardLabel(w, s) == p + x;
    assert WardLabel(w', t) == p + y;
    assert x == (p + x)[|p|..];
    assert y == (p + y)[|p|..];
    assert forall k :: 0 <= k < |NatToString(w)| ==> IsDigit(NatToString(w)[k]);
    assert forall k :: 0 <= k < |NatToString(w')| ==> IsDigit(NatToString(w')[k]);
    TokenRestInjective(NatToString(w), SectorName(s), NatToString(w'), SectorName(t));
    NatToStringInjective(w, w');
  }

  /** A positive id lies in sector `s` of pavilion `w` exactly when its label says so. */
  lemma LocateWard(id: int, w: nat, s: Sector)
    requires w >= 1
    ensures Locate(id) == WardLabel(w, s) <==> FirstBed(w, s) <= id < FirstBed(w, s) + 24
  {
    if id > 0 {
      var g := id - 1;
      var w0 := g / 48 + 1;
      var s0 := if g % 48 < 24 then I else II;
      assert Locate(id) == WardLabel(w0, s0);
      assert FirstBed(w0, s0) <= id < FirstBed(w0, s0) + 24;
      if Locate(id) == WardLabel(w, s) {
        WardLabelInjective(w0, s0, w, s);
      }
      if FirstBed(w, s) <= id < FirstBed(w, s) + 24 {
        assert g == 48 * (w - 1) + (if s == I then 0 else 24) + (id - FirstBed(w, s));
        assert g / 48 == w - 1 && g % 48 == (if s == I then 0 else 24) + (id - FirstBed(w, s));
      }
    } else {
      assert "General"[0] != WardLabel(w, s)[0];
    }
  }

  /** "General" stands exactly for the ids that are not positive. */
  lemma LocateGeneral(id: int)
    ensures Locate(id) == "General" <==> id <= 0
  {
    if id > 0 {
      var g := id - 1;
      var l := WardLabel(g / 48 + 1, if g % 48 < 24 then I else II);
      assert l[0] == 'P';
    }
  }

  /** The boundary beds of the first two pavilions. */
  lemma LocateExamples()
    ensures Locate(1) == "Pabellón 1 I"
    ensures Locate(24) == "Pabellón 1 I"
    ensures Locate(25) == "Pabellón 1 II"
    ensures Locate(48) == "Pabellón 1 II"
    ensures Locate(49) == "Pabellón 2 I"
    ensures Locate(384) == "Pabellón 8 II"
  {
    assert NatToString(1) == "1" && NatToString(2) == "2" && NatToString(8) == "8";
  }

  /** Different beds carry different labels. */
  lemma BedLabelInjective(a: int, b: int)
    requires BedLabel(a) == BedLabel(b)
    ensures a == b
  {
    var p := "Cama ";
    assert IntToString(a) == BedLabel(a)[|p|..];
    assert IntToString(b) == BedLabel(b)[|p|..];
    ParseNumberOfIntToString(a);
    ParseNumberOfIntToString(b);
  }

  /** A numeric id stored as its decimal text is located like the number. */
  lemma LocateRawOfRenderedId(n: int)
    ensures LocateRaw(StringId(IntToString(n))) == Locate(n)
    ensures LocateRaw(NumberId(n)) == Locate(n)
  {
    ParseNumberOfIntToString(n);
  }

  /** Text that does not start with a number is NaN and locates to "General". */
  lemma LocateRawNaN(s: string)
    requires s != [] && !IsSpace(s[0]) && !IsDigit(s[0]) && s[0] != '-' && s[0] != '+'
    ensures LocateRaw(StringId(s)) == "General"
  {
    ParseNumberWithoutDigits(s);
  }
}
