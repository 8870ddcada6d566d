// The renderer's geometry as the browser computes it.  JavaScript numbers
// are doubles, and web/view3d.js computes the viewports, the view width, the
// background distance and the sprite offsets from decimal fractions, so each
// operation rounds.  Module View3D takes the same formulas over exact reals;
// the lemmas here show that the viewports, the background and the vertical
// offsets come out the same, and that some horizontal sprite offsets at
// depths 2 and 4 do not.  Each `...Step` lemma evaluates `Round` on one
// numeral; the lemmas after them only combine such evaluations, which keeps
// every proof small.

module BrowserGeometry {

  import opened Util
  import opened Doubles
  import opened View3DOrder
  import View3D

  /** The view widths at depths 2 and 4 as the browser computes them. */
  const W2: real := (6192449487634431.0 / 281474976710656.0)
  const W4: real := (2814749767106561.0 / 562949953421312.0)

  /** `Math.floor(vp.l * this.width)` and so on, with the fractions and
      products as doubles; `ViewportOf` and `WidthOf` take the fractions
      themselves, on View3D's screen of 50 by 18 cells. */
  function Viewport(depth: int): (v: View3D.Rect)
    requires 0 <= depth <= MaxDepth
  {
    var (l, r, t, b) := View3D.Fractions(depth);
    ViewportOf(l, r, t, b)
  }

  function ViewportOf(l: real, r: real, t: real, b: real): View3D.Rect
  {
    View3D.Rect(Round(Round(l) * 50.0).Floor, Round(Round(r) * 50.0).Floor,
                Round(Round(t) * 18.0).Floor, Round(Round(b) * 18.0).Floor)
  }

  /** `viewWidth`: `(vp.r - vp.l) * this.width` in doubles. */
  function ViewWidth(depth: int): real
    requires 0 <= depth <= MaxDepth
  {
    var (l, r, _, _) := View3D.Fractions(depth);
    WidthOf(l, r)
  }

  function WidthOf(l: real, r: real): real
  {
    Round(Round(Round(r) - Round(l)) * 50.0)
  }

  lemma DepthZeroViewportStep1()
    ensures Round(1.0) == 1.0
  {
  }

  lemma DepthZeroViewportStep2()
    ensures Round(50.0) == 50.0
  {
  }

  lemma DepthZeroViewportStep3()
    ensures Round(18.0) == 18.0
  {
  }

  /** The viewport of the fractions at depth 0, in doubles. */
  lemma DepthZeroViewport()
    ensures ViewportOf(0.0, 1.0, 0.0, 1.0) == View3D.Rect(0, 50, 0, 18)
  {
    DepthZeroViewportStep1();
    DepthZeroViewportStep2();
    DepthZeroViewportStep3();
  }

  /** The view width of the fractions at depth 0, in doubles. */
  lemma DepthZeroWidth()
    ensures WidthOf(0.0, 1.0) == 50.0
  {
    DepthZeroViewportStep1();
    DepthZeroViewportStep2();
  }

  /** The viewport and the view width at depth 0. */
  lemma DepthZeroDoubles()
    ensures Viewport(0) == View3D.Rect(0, 50, 0, 18)
    ensures ViewWidth(0) == 50.0
  {
    assert View3D.Fractions(0) == (0.0, 1.0, 0.0, 1.0);
    DepthZeroViewport();
    DepthZeroWidth();
  }

  lemma DepthOneViewportStep1()
    ensures Round((3.0 / 20.0)) == (5404319552844595.0 / 36028797018963968.0)
  {
  }

  lemma DepthOneViewportStep2()
    ensures Round((17.0 / 20.0)) == (7656119366529843.0 / 9007199254740992.0)
  {
  }

  lemma DepthOneViewportStep3()
    ensures Round((135107988821114875.0 / 18014398509481984.0)) == (15.0 / 2.0)
  {
  }

  lemma DepthOneViewportStep4()
    ensures Round((191402984163246075.0 / 4503599627370496.0)) == (85.0 / 2.0)
  {
  }

  lemma DepthOneViewportStep5()
    ensures Round((48638875975601355.0 / 18014398509481984.0)) == (6079859496950169.0 / 2251799813685248.0)
  {
  }

  lemma DepthOneViewportStep6()
    ensures Round((68905074298768587.0 / 4503599627370496.0)) == (8613134287346073.0 / 562949953421312.0)
  {
  }

  /** The viewport of the fractions at depth 1, in doubles. */
  lemma DepthOneViewport()
    ensures ViewportOf(0.15, 0.85, 0.15, 0.85) == View3D.Rect(7, 42, 2, 15)
  {
    DepthOneViewportStep1();
    DepthOneViewportStep2();
    DepthOneViewportStep3();
    DepthOneViewportStep4();
    DepthOneViewportStep5();
    DepthOneViewportStep6();
  }

  lemma DepthOneWidthStep1()
    ensures Round((25220157913274777.0 / 36028797018963968.0)) == (3152519739159347.0 / 4503599627370496.0)
  {
  }

  lemma DepthOneWidthStep2()
    ensures Round((78812993478983675.0 / 2251799813685248.0)) == 35.0
  {
  }

  /** The view width of the fractions at depth 1, in doubles. */
  lemma DepthOneWidth()
    ensures WidthOf(0.15, 0.85) == 35.0
  {
    DepthOneViewportStep1();
    DepthOneViewportStep2();
    DepthOneWidthStep1();
    DepthOneWidthStep2();
  }

  /** The viewport and the view width at depth 1. */
  lemma DepthOneDoubles()
    ensures Viewport(1) == View3D.Rect(7, 42, 2, 15)
    ensures ViewWidth(1) == 35.0
  {
    assert View3D.Fractions(1) == (0.15, 0.85, 0.15, 0.85);
    DepthOneViewport();
    DepthOneWidth();
  }

  lemma DepthTwoViewportStep1()
    ensures Round((7.0 / 25.0)) == (1261007895663739.0 / 4503599627370496.0)
  {
  }

  lemma DepthTwoViewportStep2()
    ensures Round((18.0 / 25.0)) == (3242591731706757.0 / 4503599627370496.0)
  {
  }

  lemma DepthTwoViewportStep3()
    ensures Round((31525197391593475.0 / 2251799813685248.0)) == (7881299347898369.0 / 562949953421312.0)
  {
  }

  lemma DepthTwoViewportStep4()
    ensures Round((81064793292668925.0 / 2251799813685248.0)) == 36.0
  {
  }

  lemma DepthTwoViewportStep5()
    ensures Round((11349071060973651.0 / 2251799813685248.0)) == (2837267765243413.0 / 562949953421312.0)
  {
  }

  lemma DepthTwoViewportStep6()
    ensures Round((29183325585360813.0 / 2251799813685248.0)) == (7295831396340203.0 / 562949953421312.0)
  {
  }

  /** The viewport of the fractions at depth 2, in doubles. */
  lemma DepthTwoViewport()
    ensures ViewportOf(0.28, 0.72, 0.28, 0.72) == View3D.Rect(14, 36, 5, 12)
  {
    DepthTwoViewportStep1();
    DepthTwoViewportStep2();
    DepthTwoViewportStep3();
    DepthTwoViewportStep4();
    DepthTwoViewportStep5();
    DepthTwoViewportStep6();
  }

  lemma DepthTwoWidthStep1()
    ensures Round((990791918021509.0 / 2251799813685248.0)) == (990791918021509.0 / 2251799813685248.0)
  {
  }

  lemma DepthTwoWidthStep2()
    ensures Round((24769797950537725.0 / 1125899906842624.0)) == (6192449487634431.0 / 281474976710656.0)
  {
  }

  /** The view width of the fractions at depth 2, in doubles. */
  lemma DepthTwoWidth()
    ensures WidthOf(0.28, 0.72) == W2
  {
    DepthTwoViewportStep1();
    DepthTwoViewportStep2();
    DepthTwoWidthStep1();
    DepthTwoWidthStep2();
  }

  /** The viewport and the view width at depth 2. */
  lemma DepthTwoDoubles()
    ensures Viewport(2) == View3D.Rect(14, 36, 5, 12)
    ensures ViewWidth(2) == W2
  {
    assert View3D.Fractions(2) == (0.28, 0.72, 0.28, 0.72);
    DepthTwoViewport();
    DepthTwoWidth();
  }

  lemma DepthThreeViewportStep1()
    ensures Round((19.0 / 50.0)) == (3422735716801577.0 / 9007199254740992.0)
  {
  }

  lemma DepthThreeViewportStep2()
    ensures Round((31.0 / 50.0)) == (5584463537939415.0 / 9007199254740992.0)
  {
  }

  lemma DepthThreeViewportStep3()
    ensures Round((85568392920039425.0 / 4503599627370496.0)) == 19.0
  {
  }

  lemma DepthThreeViewportStep4()
    ensures Round((139611588448485375.0 / 4503599627370496.0)) == 31.0
  {
  }

  lemma DepthThreeViewportStep5()
    ensures Round((30804621451214193.0 / 4503599627370496.0)) == (1925288840700887.0 / 281474976710656.0)
  {
  }

  lemma DepthThreeViewportStep6()
    ensures Round((50260171841454735.0 / 4503599627370496.0)) == (3141260740090921.0 / 281474976710656.0)
  {
  }

  /** The viewport of the fractions at depth 3, in doubles. */
  lemma DepthThreeViewport()
    ensures ViewportOf(0.38, 0.62, 0.38, 0.62) == View3D.Rect(19, 31, 6, 11)
  {
    DepthThreeViewportStep1();
    DepthThreeViewportStep2();
    DepthThreeViewportStep3();
    DepthThreeViewportStep4();
    DepthThreeViewportStep5();
    DepthThreeViewportStep6();
  }

  lemma DepthThreeWidthStep1()
    ensures Round((1080863910568919.0 / 4503599627370496.0)) == (1080863910568919.0 / 4503599627370496.0)
  {
  }

  lemma DepthThreeWidthStep2()
    ensures Round((27021597764222975.0 / 2251799813685248.0)) == 12.0
  {
  }

  /** The view width of the fractions at depth 3, in doubles. */
  lemma DepthThreeWidth()
    ensures WidthOf(0.38, 0.62) == 12.0
  {
    DepthThreeViewportStep1();
    DepthThreeViewportStep2();
    DepthThreeWidthStep1();
    DepthThreeWidthStep2();
  }

  /** The viewport and the view width at depth 3. */
  lemma DepthThreeDoubles()
    ensures Viewport(3) == View3D.Rect(19, 31, 6, 11)
    ensures ViewWidth(3) == 12.0
  {
    assert View3D.Fractions(3) == (0.38, 0.62, 0.38, 0.62);
    DepthThreeViewport();
    DepthThreeWidth();
  }

  lemma DepthFourViewportStep1()
    ensures Round((9.0 / 20.0)) == (8106479329266893.0 / 18014398509481984.0)
  {
  }

  lemma DepthFourViewportStep2()
    ensures Round((11.0 / 20.0)) == (2476979795053773.0 / 4503599627370496.0)
  {
  }

  lemma DepthFourViewportStep3()
    ensures Round((202661983231672325.0 / 9007199254740992.0)) == (45.0 / 2.0)
  {
  }

  lemma DepthFourViewportStep4()
    ensures Round((61924494876344325.0 / 2251799813685248.0)) == (7740561859543041.0 / 281474976710656.0)
  {
  }

  lemma DepthFourViewportStep5()
    ensures Round((72958313963402037.0 / 9007199254740992.0)) == (4559894622712627.0 / 562949953421312.0)
  {
  }

  lemma DepthFourViewportStep6()
    ensures Round((22292818155483957.0 / 2251799813685248.0)) == (5573204538870989.0 / 562949953421312.0)
  {
  }

  /** The viewport of the fractions at depth 4, in doubles. */
  lemma DepthFourViewport()
    ensures ViewportOf(0.45, 0.55, 0.45, 0.55) == View3D.Rect(22, 27, 8, 9)
  {
    DepthFourViewportStep1();
    DepthFourViewportStep2();
    DepthFourViewportStep3();
    DepthFourViewportStep4();
    DepthFourViewportStep5();
    DepthFourViewportStep6();
  }

  lemma DepthFourWidthStep1()
    ensures Round((1801439850948199.0 / 18014398509481984.0)) == (1801439850948199.0 / 18014398509481984.0)
  {
  }

  lemma DepthFourWidthStep2()
    ensures Round((45035996273704975.0 / 9007199254740992.0)) == (2814749767106561.0 / 562949953421312.0)
  {
  }

  /** The view width of the fractions at depth 4, in doubles. */
  lemma DepthFourWidth()
    ensures WidthOf(0.45, 0.55) == W4
  {
    DepthFourViewportStep1();
    DepthFourViewportStep2();
    DepthFourWidthStep1();
    DepthFourWidthStep2();
  }

  /** The viewport and the view width at depth 4. */
  lemma DepthFourDoubles()
    ensures Viewport(4) == View3D.Rect(22, 27, 8, 9)
    ensures ViewWidth(4) == W4
  {
    assert View3D.Fractions(4) == (0.45, 0.55, 0.45, 0.55);
    DepthFourViewport();
    DepthFourWidth();
  }

  /** The viewport at depth 0 agrees with exact arithmetic, and so does
      the view width. */
  lemma DepthZeroAgrees()
    ensures Viewport(0) == View3D.Viewport(0)
    ensures ViewWidth(0) == View3D.ViewWidth(0)
  {
    View3D.ViewportsNest();
    DepthZeroDoubles();
  }

  /** The viewport at depth 1 agrees with exact arithmetic, and so does
      the view width. */
  lemma DepthOneAgrees()
    ensures Viewport(1) == View3D.Viewport(1)
    ensures ViewWidth(1) == View3D.ViewWidth(1)
  {
    View3D.ViewportsNest();
    DepthOneDoubles();
  }

  /** The viewport at depth 2 agrees with exact arithmetic, and so does
      the view width not. */
  lemma DepthTwoAgrees()
    ensures Viewport(2) == View3D.Viewport(2)
    ensures ViewWidth(2) == 22.0 - 1.0 / 281474976710656.0 < View3D.ViewWidth(2)
  {
    View3D.ViewportsNest();
    DepthTwoDoubles();
  }

  /** The viewport at depth 3 agrees with exact arithmetic, and so does
      the view width. */
  lemma DepthThreeAgrees()
    ensures Viewport(3) == View3D.Viewport(3)
    ensures ViewWidth(3) == View3D.ViewWidth(3)
  {
    View3D.ViewportsNest();
    DepthThreeDoubles();
  }

  /** The viewport at depth 4 agrees with exact arithmetic, and so does
      the view width not. */
  lemma DepthFourAgrees()
    ensures Viewport(4) == View3D.Viewport(4)
    ensures ViewWidth(4) == 5.0 + 1.0 / 562949953421312.0 > View3D.ViewWidth(4)
  {
    View3D.ViewportsNest();
    DepthFourDoubles();
  }

  /** The viewports come out as in exact arithmetic; the view widths at
      depths 0, 1 and 3 too, but at depth 2 the width falls just short of 22
      and at depth 4 it lies just above 5. */
  lemma ViewportsAgree()
    ensures forall d | 0 <= d <= MaxDepth :: Viewport(d) == View3D.Viewport(d)
    ensures forall d | d in {0, 1, 3} :: ViewWidth(d) == View3D.ViewWidth(d)
    ensures ViewWidth(2) == 22.0 - 1.0 / 281474976710656.0 < View3D.ViewWidth(2)
    ensures ViewWidth(4) == 5.0 + 1.0 / 562949953421312.0 > View3D.ViewWidth(4)
  {
    DepthZeroAgrees();
    DepthOneAgrees();
    DepthTwoAgrees();
    DepthThreeAgrees();
    DepthFourAgrees();
    forall d | 0 <= d <= MaxDepth
      ensures Viewport(d) == View3D.Viewport(d)
    {
      assert d in {0, 1, 2, 3, 4};
    }
  }


  /** `distFromMid` of `drawBackground` in doubles; `midY` is 9 exactly. */
  function HorizonDistance(y: int): real
  {
    Round(Abs(y - 9) as real / 9.0)
  }

  /** `drawBackground`'s character for row y, against the doubles 0.6 and 0.3. */
  function BackgroundChar(y: int): char
  {
    var dist := HorizonDistance(y);
    if dist > Round(0.6) then '░' else if dist > Round(0.3) then '·' else ' '
  }

  lemma BackgroundNearTheHorizonStep1()
    ensures Round((3.0 / 10.0)) == (5404319552844595.0 / 18014398509481984.0)
  {
  }

  lemma BackgroundNearTheHorizonStep2()
    ensures Round((3.0 / 5.0)) == (5404319552844595.0 / 9007199254740992.0)
  {
  }

  lemma BackgroundNearTheHorizonStep3()
    ensures Round((1.0 / 9.0)) == (2001599834386887.0 / 18014398509481984.0)
  {
  }

  lemma BackgroundNearTheHorizonStep4()
    ensures Round((2.0 / 9.0)) == (2001599834386887.0 / 9007199254740992.0)
  {
  }

  lemma BackgroundNearTheHorizonStep5()
    ensures Round((1.0 / 3.0)) == (6004799503160661.0 / 18014398509481984.0)
  {
  }

  lemma BackgroundNearTheHorizonStep6()
    ensures Round((4.0 / 9.0)) == (2001599834386887.0 / 4503599627370496.0)
  {
  }

  /** The rows from the horizon to four rows below it. */
  lemma BackgroundNearTheHorizon()
    ensures BackgroundChar(9) == ' '
    ensures BackgroundChar(10) == ' '
    ensures BackgroundChar(11) == ' '
    ensures BackgroundChar(12) == '·'
    ensures BackgroundChar(13) == '·'
  {
    BackgroundNearTheHorizonStep1();
    BackgroundNearTheHorizonStep2();
    BackgroundNearTheHorizonStep3();
    BackgroundNearTheHorizonStep4();
    BackgroundNearTheHorizonStep5();
    BackgroundNearTheHorizonStep6();
  }

  lemma BackgroundAwayFromTheHorizonStep1()
    ensures Round((5.0 / 9.0)) == (2501999792983609.0 / 4503599627370496.0)
  {
  }

  lemma BackgroundAwayFromTheHorizonStep2()
    ensures Round((2.0 / 3.0)) == (6004799503160661.0 / 9007199254740992.0)
  {
  }

  lemma BackgroundAwayFromTheHorizonStep3()
    ensures Round((7.0 / 9.0)) == (7005599420354105.0 / 9007199254740992.0)
  {
  }

  /** The rows five to seven rows below the horizon. */
  lemma BackgroundAwayFromTheHorizon()
    ensures BackgroundChar(14) == '·'
    ensures BackgroundChar(15) == '░'
    ensures BackgroundChar(16) == '░'
  {
    BackgroundNearTheHorizonStep1();
    BackgroundNearTheHorizonStep2();
    BackgroundAwayFromTheHorizonStep1();
    BackgroundAwayFromTheHorizonStep2();
    BackgroundAwayFromTheHorizonStep3();
  }

  lemma BackgroundAtTheEdgeStep1()
    ensures Round((8.0 / 9.0)) == (2001599834386887.0 / 2251799813685248.0)
  {
  }

  /** The last two rows, eight and nine rows below the horizon. */
  lemma BackgroundAtTheEdge()
    ensures BackgroundChar(17) == '░'
    ensures BackgroundChar(18) == '░'
  {
    BackgroundNearTheHorizonStep1();
    BackgroundNearTheHorizonStep2();
    BackgroundAtTheEdgeStep1();
    DepthZeroViewportStep1();
  }

  /** The row k rows from the horizon, for k up to 9. */
  lemma BackgroundRows(k: int)
    ensures 0 <= k <= 9 ==> BackgroundChar(9 + k) == (if k <= 2 then ' ' else if k <= 5 then '·' else '░')
  {
    if 0 <= k <= 4 {
      BackgroundNearTheHorizon();
      assert k in {0, 1, 2, 3, 4};
    } else if 5 <= k <= 7 {
      BackgroundAwayFromTheHorizon();
      assert k in {5, 6, 7};
    } else if 8 <= k <= 9 {
      BackgroundAtTheEdge();
      assert k in {8, 9};
    }
  }

  /** Every row of the background comes out as in exact arithmetic. */
  lemma BackgroundAgrees(y: int)
    ensures 0 <= y < 18 ==> BackgroundChar(y) == View3D.BackgroundChar(y)
  {
    if 0 <= y < 18 {
      View3D.BackgroundIsSymmetric(y);
      var k := Abs(y - 9);
      BackgroundRows(k);
      assert HorizonDistance(y) == HorizonDistance(9 + k);
    }
  }


  /** The vertical offsets of `drawEntity` in doubles: a flyer of h rows is
      raised by `Math.floor(h * 0.6)`, a floor item lowered by
      `Math.floor(this.height * 0.35)`. */
  function FlyerRise(h: int): int
  {
    Round(h as real * Round(0.6)).Floor
  }

  function FloorItemDrop(): int
  {
    Round(18.0 * Round(0.35)).Floor
  }

  lemma FloorItemDropAgreesStep1()
    ensures Round((7.0 / 20.0)) == (3152519739159347.0 / 9007199254740992.0)
  {
  }

  lemma FloorItemDropAgreesStep2()
    ensures Round((28372677652434123.0 / 4503599627370496.0)) == (7093169413108531.0 / 1125899906842624.0)
  {
  }

  /** A floor item is lowered by as many rows as in exact arithmetic. */
  lemma FloorItemDropAgrees()
    ensures FloorItemDrop() == (18.0 * 0.35).Floor == 6
  {
    FloorItemDropAgreesStep1();
    FloorItemDropAgreesStep2();
  }

  lemma FlyerRisesStep1()
    ensures Round((5404319552844595.0 / 9007199254740992.0)) == (5404319552844595.0 / 9007199254740992.0)
  {
  }

  lemma FlyerRisesStep2()
    ensures Round((5404319552844595.0 / 4503599627370496.0)) == (5404319552844595.0 / 4503599627370496.0)
  {
  }

  lemma FlyerRisesStep3()
    ensures Round((16212958658533785.0 / 9007199254740992.0)) == (2026619832316723.0 / 1125899906842624.0)
  {
  }

  lemma FlyerRisesStep4()
    ensures Round((5404319552844595.0 / 2251799813685248.0)) == (5404319552844595.0 / 2251799813685248.0)
  {
  }

  lemma FlyerRisesStep5()
    ensures Round((27021597764222975.0 / 9007199254740992.0)) == 3.0
  {
  }

  /** The rise of flyers of up to five rows. */
  lemma FlyerRises()
    ensures FlyerRise(0) == 0 && FlyerRise(1) == 0 && FlyerRise(2) == 1
    ensures FlyerRise(3) == 1 && FlyerRise(4) == 2 && FlyerRise(5) == 3
  {
    BackgroundNearTheHorizonStep2();
    FlyerRisesStep1();
    FlyerRisesStep2();
    FlyerRisesStep3();
    FlyerRisesStep4();
    FlyerRisesStep5();
  }

  /** For patterns of up to five rows both offsets come out as in exact
      arithmetic. */
  lemma VerticalOffsetsAgree(h: int)
    ensures FloorItemDrop() == (18.0 * 0.35).Floor == 6
    ensures 0 <= h <= 5 ==> FlyerRise(h) == (h as real * 0.6).Floor == h * 3 / 5
  {
    FloorItemDropAgrees();
    FlyerRises();
    assert 0 <= h <= 5 ==> h in {0, 1, 2, 3, 4, 5};
  }

  /** `sideOffset` and `spreadPixels` of `drawEntity` in doubles, for a view
      width w; the spread `(i - (n - 1) / 2) * 0.2` of a floor item `steps`
      half-steps from the centre of its group has the exact first factor
      `steps / 2`, and the final halving is exact. */
  function SideOffset(depth: int, sideDist: int): int
    requires 0 <= depth <= MaxDepth
  {
    SideOffsetOf(ViewWidth(depth), sideDist)
  }

  function SideOffsetOf(w: real, sideDist: int): int
  {
    Round(Round(sideDist as real * w) * Round(0.4)).Floor
  }

  function SpreadPixels(depth: int, steps: int): int
    requires 0 <= depth <= MaxDepth
  {
    SpreadPixelsOf(ViewWidth(depth), steps)
  }

  function SpreadPixelsOf(w: real, steps: int): int
  {
    var spread := Round(steps as real / 2.0 * Round(0.2));
    (Round(spread * w) * 0.5).Floor
  }

  lemma SideOffsetLeftAtDepthFourStep1()
    ensures Round((2.0 / 5.0)) == (3602879701896397.0 / 9007199254740992.0)
  {
  }

  lemma SideOffsetLeftAtDepthFourStep2()
    ensures Round((-(2814749767106561.0 / 562949953421312.0))) == (-(2814749767106561.0 / 562949953421312.0))
  {
  }

  lemma SideOffsetLeftAtDepthFourStep3()
    ensures Round((-(10141204801825839377803280960717.0 / 5070602400912917605986812821504.0))) == (-(2251799813685249.0 / 1125899906842624.0))
  {
  }

  /** The side offset one step to the left at the depth-4 view width. */
  lemma SideOffsetLeftAtDepthFour()
    ensures SideOffsetOf(W4, -1) == -3
  {
    SideOffsetLeftAtDepthFourStep1();
    SideOffsetLeftAtDepthFourStep2();
    SideOffsetLeftAtDepthFourStep3();
  }

  lemma SideOffsetRightAtDepthFourStep1()
    ensures Round((2814749767106561.0 / 562949953421312.0)) == (2814749767106561.0 / 562949953421312.0)
  {
  }

  lemma SideOffsetRightAtDepthFourStep2()
    ensures Round((10141204801825839377803280960717.0 / 5070602400912917605986812821504.0)) == (2251799813685249.0 / 1125899906842624.0)
  {
  }

  /** The side offset one step to the right at the depth-4 view width. */
  lemma SideOffsetRightAtDepthFour()
    ensures SideOffsetOf(W4, 1) == 2
  {
    SideOffsetLeftAtDepthFourStep1();
    SideOffsetRightAtDepthFourStep1();
    SideOffsetRightAtDepthFourStep2();
  }

  /** At depth 4 a sprite one step to the left lands one column further left
      in the browser than in exact arithmetic; one step to the right it lands
      in the same column. */
  lemma SideOffsetsDiffer()
    ensures SideOffset(4, -1) == -3 && View3D.SideOffset(4, -1) == -2
    ensures SideOffset(4, 1) == View3D.SideOffset(4, 1) == 2
  {
    DepthFourDoubles();
    SideOffsetLeftAtDepthFour();
    SideOffsetRightAtDepthFour();
  }

  lemma SpreadAtDepthFourStep1()
    ensures Round((1.0 / 5.0)) == (3602879701896397.0 / 18014398509481984.0)
  {
  }

  lemma SpreadAtDepthFourStep2()
    ensures Round((-(3602879701896397.0 / 9007199254740992.0))) == (-(3602879701896397.0 / 9007199254740992.0))
  {
  }

  /** The spread of the first of five floor items at the depth-4 view width. */
  lemma SpreadAtDepthFour()
    ensures SpreadPixelsOf(W4, -4) == -2
  {
    SpreadAtDepthFourStep1();
    SpreadAtDepthFourStep2();
    SideOffsetLeftAtDepthFourStep3();
  }

  lemma SpreadAtDepthTwoStep1()
    ensures Round((18014398509481985.0 / 18014398509481984.0)) == 1.0
  {
  }

  lemma SpreadAtDepthTwoStep2()
    ensures Round((6192449487634431.0 / 281474976710656.0)) == (6192449487634431.0 / 281474976710656.0)
  {
  }

  /** The spread of the last of eleven floor items at the depth-2 view width. */
  lemma SpreadAtDepthTwo()
    ensures SpreadPixelsOf(W2, 10) == 10
  {
    SpreadAtDepthFourStep1();
    SpreadAtDepthTwoStep1();
    SpreadAtDepthTwoStep2();
  }

  /** The first of five floor items at depth 4, and the last of eleven at
      depth 2, land one column further left in the browser than in exact
      arithmetic. */
  lemma SpreadsDiffer()
    ensures SpreadPixels(4, -4) == -2 && View3D.SpreadPixels(4, -4) == -1
    ensures SpreadPixels(2, 10) == 10 && View3D.SpreadPixels(2, 10) == 11
  {
    DepthTwoDoubles();
    DepthFourDoubles();
    SpreadAtDepthFour();
    SpreadAtDepthTwo();
  }
}
