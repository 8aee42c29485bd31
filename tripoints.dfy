/** The text-to-geometry step of tripoints (`add_visualmodels`): the text
    typed into the "Coords/Tri" field is split on "),(" and, by the number of
    parts, read as one point, a vector (start and direction) or a triangle.
    Each part is split on "," and each of its first three fields is scrubbed
    by `conditionAsNumeric` and converted by `atof`.

    `mplot::tools::stringToVector` is not part of this model: it is the
    parameter `split`, of which nothing is assumed beyond returning a sequence
    of parts. `std::atof` is the uninterpreted parameter `atof`, and the float
    type it yields is the type parameter `F`. The fixed-size `sm::vec` values
    `coord`, `vectr` and `tri` are value types, modelled as sequences of length
    3, 2x3 and 3x3 that the loops update element by element.
 */
module TriPoints {
  import opened Numeric

  /** What the text is read as: the flags `have_coord`, `have_vector` and
      `have_tri` with the coordinates each of them guards. */
  datatype Shape<F> =
    | NoShape
    | Coord(coord: seq<F>)
    | Vectr(vectr: seq<seq<F>>)
    | Tri(tri: seq<seq<F>>)

  /** `mplot::tools::stringToVector(s, separator)`. */
  type Splitter = (StdString, StdString) -> seq<StdString>

  /** The "),("-separated parts of the text. */
  function Parts(split: Splitter, text: StdString): seq<StdString>
  {
    split(text, "),(")
  }

  /** The ","-separated fields of one part. */
  function Fields(split: Splitter, part: StdString): seq<StdString>
  {
    split(part, ",")
  }

  /** Every part has the three fields that are read from it. */
  predicate ThreeFieldsEach(split: Splitter, parts: seq<StdString>)
  {
    forall i :: 0 <= i < |parts| ==> |Fields(split, parts[i])| >= 3
  }

  /** The point read from the fields of one part: each of the first three
      fields, scrubbed by `conditionAsNumeric`, then converted by `atof`. */
  function Point<F>(fields: seq<StdString>, numeric: string, atof: string -> F): seq<F>
    requires |fields| >= 3
  {
    [atof(Filter(fields[0], CharsNum(numeric))),
     atof(Filter(fields[1], CharsNum(numeric))),
     atof(Filter(fields[2], CharsNum(numeric)))]
  }

  /** The points read from every part, in order. */
  function Points<F>(split: Splitter, parts: seq<StdString>, numeric: string, atof: string -> F): (pts: seq<seq<F>>)
    requires ThreeFieldsEach(split, parts)
    ensures |pts| == |parts|
  {
    seq(|parts|, i requires 0 <= i < |parts| => Point(Fields(split, parts[i]), numeric, atof))
  }

  /** How the text is read, for any result of `split`: one part with exactly
      three fields is a point; two parts are a vector and three parts a
      triangle, provided that every part has the three fields read from it;
      anything else is nothing. */
  function Classify<F>(text: StdString, numeric: string, split: Splitter, atof: string -> F): (s: Shape<F>)
    ensures s.Coord? ==> |s.coord| == 3
    ensures s.Vectr? ==> |s.vectr| == 2 && forall i :: 0 <= i < 2 ==> |s.vectr[i]| == 3
    ensures s.Tri? ==> |s.tri| == 3 && forall i :: 0 <= i < 3 ==> |s.tri[i]| == 3
  {
    var p1 := Parts(split, text);
    if |p1| == 1 then
      var p2 := Fields(split, p1[0]);
      if |p2| == 3 then Coord(Point(p2, numeric, atof)) else NoShape
    else if |p1| == 2 && ThreeFieldsEach(split, p1) then
      Vectr(Points(split, p1, numeric, atof))
    else if |p1| == 3 && ThreeFieldsEach(split, p1) then
      Tri(Points(split, p1, numeric, atof))
    else
      NoShape
  }

  /** The shape that the three flags and their coordinates describe; the
      visual models built at the end of `add_visualmodels` follow it. */
  function Reading<F>(haveCoord: bool, coord: seq<F>, haveVector: bool, vectr: seq<seq<F>>,
                      haveTri: bool, tri: seq<seq<F>>): Shape<F>
  {
    if haveCoord then Coord(coord)
    else if haveVector then Vectr(vectr)
    else if haveTri then Tri(tri)
    else NoShape
  }

  /** At most one of the three flags is set. */
  predicate AtMostOne(a: bool, b: bool, c: bool)
  {
    !(a && b) && !(a && c) && !(b && c)
  }

  /** The reads `p2[0]`, `p2[1]`, `p2[2]` of the two- and three-part branches
      stay inside `p2`. */
  predicate FieldReadsInRange(split: Splitter, text: StdString)
  {
    var p1 := Parts(split, text);
    (|p1| == 2 || |p1| == 3) ==> ThreeFieldsEach(split, p1)
  }

  /** The inner loop of the two- and three-part branches: scrub and convert
      the first three fields of a part into the three coordinates of `pt`. */
  method ReadPoint<F>(p2: seq<StdString>, numeric: string, atof: string -> F, pt0: seq<F>)
    returns (pt: seq<F>)
    requires |p2| >= 3 && |pt0| == 3
    ensures pt == Point(p2, numeric, atof)
  {
    pt := pt0;
    for j := 0 to 3
      invariant |pt| == 3
      invariant forall k :: 0 <= k < j ==> pt[k] == atof(Filter(p2[k], CharsNum(numeric)))
    {
      var field := ConditionAsNumeric(p2[j], numeric);
      pt := pt[j := atof(field)];
    }
  }

  /** The outer loop of the two- and three-part branches: one point per part,
      written into the rows of `pts`. */
  method ReadPoints<F>(split: Splitter, p1: seq<StdString>, numeric: string, atof: string -> F,
                       pts0: seq<seq<F>>)
    returns (pts: seq<seq<F>>)
    requires ThreeFieldsEach(split, p1)
    requires |pts0| == |p1| && forall i :: 0 <= i < |p1| ==> |pts0[i]| == 3
    ensures pts == Points(split, p1, numeric, atof)
  {
    pts := pts0;
    for i := 0 to |p1|
      invariant |pts| == |p1|
      invariant forall k :: 0 <= k < i ==> pts[k] == Point(Fields(split, p1[k]), numeric, atof)
      invariant forall k :: i <= k < |p1| ==> |pts[k]| == 3
    {
      var p2 := split(p1[i], ",");
      var pt := ReadPoint(p2, numeric, atof, pts[i]);
      pts := pts[i := pt];
    }
  }

  /** The parsing part of `add_visualmodels` as the source writes it: the two-
      and three-part branches read three fields of every part without checking
      how many there are, so it is only defined on text whose parts all have
      them. There it reads the text as `Classify` does and sets at most one
      flag. */
  method ParseGeometryAsWritten<F(0)>(text: StdString, numeric: string, split: Splitter, atof: string -> F)
    returns (haveCoord: bool, coord: seq<F>, haveVector: bool, vectr: seq<seq<F>>,
             haveTri: bool, tri: seq<seq<F>>)
    requires FieldReadsInRange(split, text)
    ensures AtMostOne(haveCoord, haveVector, haveTri)
    ensures Reading(haveCoord, coord, haveVector, vectr, haveTri, tri) == Classify(text, numeric, split, atof)
  {
    var unset: F := *;  // sm::vec locals start out indeterminate
    haveCoord, coord := false, [unset, unset, unset];
    haveTri, tri := false, [coord, coord, coord];
    haveVector, vectr := false, [coord, coord];

    var p1 := split(text, "),(");
    if |p1| == 1 {
      var p2 := split(p1[0], ",");
      if |p2| == 3 {
        for i := 0 to 3
          invariant |coord| == 3
          invariant haveCoord == (i > 0)
          invariant forall k :: 0 <= k < i ==> coord[k] == atof(Filter(p2[k], CharsNum(numeric)))
        {
          var field := ConditionAsNumeric(p2[i], numeric);
          coord := coord[i := atof(field)];
          haveCoord := true;
        }
      }
    } else if |p1| == 2 {
      vectr := ReadPoints(split, p1, numeric, atof, vectr);
      haveVector := true;
    } else if |p1| == 3 {
      tri := ReadPoints(split, p1, numeric, atof, tri);
      haveTri := true;
    }
  }

  /** The parsing part of `add_visualmodels` with the missing size check
      added: a two- or three-part text whose parts do not all have three
      fields is read as nothing, as a one-part text without three fields
      already is. Defined on every text. */
  method ParseGeometry<F(0)>(text: StdString, numeric: string, split: Splitter, atof: string -> F)
    returns (haveCoord: bool, coord: seq<F>, haveVector: bool, vectr: seq<seq<F>>,
             haveTri: bool, tri: seq<seq<F>>)
    ensures AtMostOne(haveCoord, haveVector, haveTri)
    ensures Reading(haveCoord, coord, haveVector, vectr, haveTri, tri) == Classify(text, numeric, split, atof)
  {
    var unset: F := *;  // sm::vec locals start out indeterminate
    haveCoord, coord := false, [unset, unset, unset];
    haveTri, tri := false, [coord, coord, coord];
    haveVector, vectr := false, [coord, coord];

    var p1 := split(text, "),(");
    if |p1| == 1 {
      var p2 := split(p1[0], ",");
      if |p2| == 3 {
        for i := 0 to 3
          invariant |coord| == 3
          invariant haveCoord == (i > 0)
          invariant forall k :: 0 <= k < i ==> coord[k] == atof(Filter(p2[k], CharsNum(numeric)))
        {
          var field := ConditionAsNumeric(p2[i], numeric);
          coord := coord[i := atof(field)];
          haveCoord := true;
        }
      }
    } else if |p1| == 2 {
      if ThreeFieldsEach(split, p1) {
        vectr := ReadPoints(split, p1, numeric, atof, vectr);
        haveVector := true;
      }
    } else if |p1| == 3 {
      if ThreeFieldsEach(split, p1) {
        tri := ReadPoints(split, p1, numeric, atof, tri);
        haveTri := true;
      }
    }
  }

  /** The part of `imgui_visual` that `add_visualmodels` reads and writes. */
  class ImguiVisual {
    /** The text of the "Coords/Tri" field. */
    var geomText: StdString
    /** Do the visual models need to be re-built? */
    var needsVisualmodelRebuild: bool

    constructor ()
      ensures geomText == "" && needsVisualmodelRebuild
    {
      geomText := "";
      needsVisualmodelRebuild := true;
    }
  }

  /** `add_visualmodels(v)`: read `v.geom_text`, hand the shape it describes
      to the visual-model construction (returned here) and clear
      `v.needs_visualmodel_rebuild`, whatever the text was. */
  method AddVisualModels<F(0)>(v: ImguiVisual, numeric: string, split: Splitter, atof: string -> F)
    returns (shape: Shape<F>)
    modifies v
    ensures shape == Classify(old(v.geomText), numeric, split, atof)
    ensures v.geomText == old(v.geomText) && !v.needsVisualmodelRebuild
  {
    var haveCoord, coord, haveVector, vectr, haveTri, tri := ParseGeometry(v.geomText, numeric, split, atof);
    shape := Reading(haveCoord, coord, haveVector, vectr, haveTri, tri);
    v.needsVisualmodelRebuild := false;
  }

  /** The part count alone chooses the shape: a point only from one part with
      exactly three fields, a vector only from two parts and a triangle only
      from three, each with three fields in every part; no shape otherwise. */
  lemma ClassifyByPartCount<F>(text: StdString, numeric: string, split: Splitter, atof: string -> F)
    ensures var p1, s := Parts(split, text), Classify(text, numeric, split, atof);
      && (s.Coord? <==> |p1| == 1 && |Fields(split, p1[0])| == 3)
      && (s.Vectr? <==> |p1| == 2 && ThreeFieldsEach(split, p1))
      && (s.Tri? <==> |p1| == 3 && ThreeFieldsEach(split, p1))
      && (|p1| !in {1, 2, 3} ==> s.NoShape?)
  {
  }

  /** Every coordinate of the shape is `atof` of a string made only of
      `CHARS_NUMERIC` and ",.-" characters. */
  lemma ClassifyReadsScrubbedFields<F>(text: StdString, numeric: string, split: Splitter, atof: string -> F)
    ensures var s := Classify(text, numeric, split, atof);
      && (s.Coord? ==> forall j :: 0 <= j < 3 ==> Scrubbed(s.coord[j], numeric, atof))
      && (s.Vectr? ==> forall i, j :: 0 <= i < 2 && 0 <= j < 3 ==> Scrubbed(s.vectr[i][j], numeric, atof))
      && (s.Tri? ==> forall i, j :: 0 <= i < 3 && 0 <= j < 3 ==> Scrubbed(s.tri[i][j], numeric, atof))
  {
  }

  /** `x` is `atof` of some string of `CHARS_NUMERIC` and ",.-" characters. */
  ghost predicate Scrubbed<F>(x: F, numeric: string, atof: string -> F)
  {
    exists t: string :: atof(t) == x && forall k :: 0 <= k < |t| ==> t[k] in CharsNum(numeric)
  }

  /** Where the source as written is defined, the corrected reading agrees
      with it: the size check only removes the out-of-range reads. A corollary
      of the two parses' postconditions, which both equate their reading with
      `Classify`. */
  method CorrectionAgrees<F(0)>(text: StdString, numeric: string, split: Splitter, atof: string -> F)
    returns (asWritten: Shape<F>, corrected: Shape<F>)
    requires FieldReadsInRange(split, text)
    ensures asWritten == corrected
  {
    var c1, x1, v1, y1, t1, z1 := ParseGeometryAsWritten(text, numeric, split, atof);
    var c2, x2, v2, y2, t2, z2 := ParseGeometry(text, numeric, split, atof);
    asWritten := Reading(c1, x1, v1, y1, t1, z1);
    corrected := Reading(c2, x2, v2, y2, t2, z2);
  }

  /** A text the source reads out of range: "(1,2),(3,4,5)" splits on "),("
      into two parts, the first of which has only two fields, so the
      two-part branch reads `p2[2]` past the end of `p2`. */
  function ShortPartSplit(s: StdString, sep: StdString): seq<StdString>
  {
    if sep == "),(" && s == "(1,2),(3,4,5)" then ["(1,2", "3,4,5)"]
    else if sep == "," && s == "(1,2" then ["(1", "2"]
    else if sep == "," && s == "3,4,5)" then ["3", "4", "5)"]
    else [s]
  }

  lemma ShortPartIsReadOutOfRange()
    ensures |Parts(ShortPartSplit, "(1,2),(3,4,5)")| == 2
    ensures !FieldReadsInRange(ShortPartSplit, "(1,2),(3,4,5)")
  {
    assert Parts(ShortPartSplit, "(1,2),(3,4,5)")[0] == "(1,2";
  }
}
