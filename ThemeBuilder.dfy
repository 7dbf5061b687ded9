/**
 * The theme-builder wizard page: a step counter that moves between the three
 * panels Design, Features and Customize, and a `preview` key chosen by
 * clicking one of six industry cards. The key is derived from the card's
 * display name by a slug rewrite, and the live-preview panel shows it after a
 * second rewrite.
 */
module ThemeBuilder {
  import opened Text
  import opened Selection

  const FirstStep := 1
  const LastStep := 3

  /** The three step numbers, in the order of the progress circles and of the panels. */
  const Steps: seq<int> := [1, 2, 3]

  /** The industry cards, in display order. */
  const Industries: seq<string> :=
    ["Business", "Real Estate", "Education", "Tech & SaaS", "Portfolio", "E-commerce"]

  /** The preview keys the six cards produce, in the same order. */
  const CatalogSlugs: seq<string> :=
    ["business", "real-estate", "education", "tech-saas", "portfolio", "e-commerce"]

  /** The live-preview texts of the six catalog keys, in the same order. */
  const CatalogLabels: seq<string> :=
    ["business", "real estate", "education", "tech saas", "portfolio", "e commerce"]

  /** The initial preview key. */
  const InitialPreview := "business"

  predicate InRange(step: int) {
    FirstStep <= step <= LastStep
  }

  // ---------------------------------------------------------------------------
  // Step navigation

  /** `nextStep`: one step forward, never past the last step (`Math.min(prev + 1, 3)`). */
  function Advance(step: int): (r: int)
    ensures r <= LastStep
    ensures r == step + 1 || r == LastStep
    ensures step + 1 <= LastStep ==> r == step + 1
  {
    if step + 1 < LastStep then step + 1 else LastStep
  }

  /** `prevStep`: one step back, never before the first step (`Math.max(prev - 1, 1)`). */
  function Retreat(step: int): (r: int)
    ensures r >= FirstStep
    ensures r == step - 1 || r == FirstStep
    ensures step - 1 >= FirstStep ==> r == step - 1
  {
    if step - 1 > FirstStep then step - 1 else FirstStep
  }

  /** Both moves keep the step inside [1, 3]; the last step is a fixed point of Advance and the first of Retreat. */
  lemma MovesStayInRange(step: int)
    requires InRange(step)
    ensures InRange(Advance(step)) && InRange(Retreat(step))
    ensures Advance(step) == step <==> step == LastStep
    ensures Retreat(step) == step <==> step == FirstStep
  {
  }

  /** Away from the clamps, Retreat undoes Advance and Advance undoes Retreat. */
  lemma AdvanceRetreatInverse(step: int)
    ensures FirstStep <= step < LastStep ==> Retreat(Advance(step)) == step
    ensures FirstStep < step <= LastStep ==> Advance(Retreat(step)) == step
  {
  }

  // ---------------------------------------------------------------------------
  // Rendering predicates over the step

  /** A step panel is rendered when the step equals its number (`step === 1 && ...`). */
  predicate PanelShown(step: int, panel: int) {
    step == panel
  }

  /**
   * The number of panels rendered is the number of entries of Steps equal to
   * the step: one for every step in range, none otherwise.
   */
  lemma ExactlyOnePanel(step: int)
    ensures Count(Steps, step) == if InRange(step) then 1 else 0
    ensures (exists i :: 0 <= i < |Steps| && PanelShown(step, Steps[i])) <==> InRange(step)
    ensures forall i, j :: 0 <= i < |Steps| && 0 <= j < |Steps| && PanelShown(step, Steps[i]) && PanelShown(step, Steps[j]) ==> i == j
  {
    assert Distinct(Steps);
    CountDistinct(Steps, step);
    if InRange(step) {
      assert PanelShown(step, Steps[step - 1]);
    }
  }

  /** Progress circle `num` is filled (gradient) when the step has reached it. */
  predicate CircleFilled(step: int, num: int) {
    step >= num
  }

  /** Progress circle `num` shows a check mark instead of its number once the step is past it. */
  predicate CircleChecked(step: int, num: int) {
    step > num
  }

  /**
   * A checked circle is always filled, and for a step in range the only circle
   * that is filled but not checked is the current one; the circles before it
   * are checked and the ones after it are plain.
   */
  lemma CircleStates(step: int, num: int)
    requires InRange(step) && InRange(num)
    ensures CircleChecked(step, num) ==> CircleFilled(step, num)
    ensures CircleFilled(step, num) && !CircleChecked(step, num) <==> num == step
    ensures num < step <==> CircleChecked(step, num)
    ensures num > step <==> !CircleFilled(step, num)
  {
  }

  // ---------------------------------------------------------------------------
  // Industry selection and preview

  /**
   * The preview key of an industry card: the name lower-cased, then the first
   * " & " replaced by "-", then the first " " replaced by "-".
   */
  function Slug(industry: string): string
  {
    ReplaceFirst(ReplaceFirst(ToLower(industry), " & ", "-"), " ", "-")
  }

  /** A preview key never holds an upper-case letter, whatever the card's name. */
  lemma SlugNoUpper(industry: string)
    ensures NoUpper(Slug(industry))
  {
    var lower := ToLower(industry);
    ToLowerNoUpper(industry);
    ReplaceFirstNoUpper(lower, " & ", "-");
    ReplaceFirstNoUpper(ReplaceFirst(lower, " & ", "-"), " ", "-");
  }

  /** The text of the live-preview panel: the key with its first "-" replaced by " ". */
  function PreviewLabel(preview: string): (r: string)
    ensures |r| == |preview|
  {
    ReplaceFirstLength(preview, "-", " ");
    ReplaceFirst(preview, "-", " ")
  }

  /** An industry card carries the selection ring when its key equals the preview. */
  predicate RingShown(preview: string, industry: string) {
    preview == Slug(industry)
  }

  /** Slug, one rewrite at a time. */
  lemma SlugFrom(name: string, lower: string, mid: string, r: string)
    requires ToLower(name) == lower
    requires ReplaceFirst(lower, " & ", "-") == mid
    requires ReplaceFirst(mid, " ", "-") == r
    ensures Slug(name) == r
  {
  }

  /*
   * The catalog facts below take their strings as parameters fixed by a
   * requires clause, which keeps the solver from unfolding the string
   * functions on literal arguments.
   */

  /** A name without a space (so without " & ") only gets lower-cased. */
  lemma SlugOneWord(name: string, lower: string)
    requires ToLower(name) == lower && ' ' !in lower
    ensures Slug(name) == lower
  {
    ReplaceAbsent(lower, " & ", "-", ' ');
    ReplaceAbsent(lower, " ", "-", ' ');
    SlugFrom(name, lower, lower, lower);
  }

  lemma LowerBusiness(name: string, lower: string)
    requires name == "Business" && lower == "business"
    ensures ToLower(name) == lower && ' ' !in lower
  {
  }

  lemma SlugBusiness(name: string, r: string)
    requires name == "Business" && r == "business"
    ensures Slug(name) == r
  {
    LowerBusiness(name, r);
    SlugOneWord(name, r);
  }

  lemma LowerRealEstate(name: string, lower: string)
    requires name == "Real Estate" && lower == "real estate"
    ensures ToLower(name) == lower
  {
  }

  lemma ReplaceRealEstate(lower: string, r: string)
    requires lower == "real estate" && r == "real-estate"
    ensures ReplaceFirst(lower, " & ", "-") == lower
    ensures ReplaceFirst(lower, " ", "-") == r
  {
    ReplaceAbsent(lower, " & ", "-", '&');
    ReplaceAt(lower, " ", "-", 4);
  }

  lemma SlugRealEstate(name: string, lower: string, r: string)
    requires name == "Real Estate" && lower == "real estate" && r == "real-estate"
    ensures Slug(name) == r
  {
    LowerRealEstate(name, lower);
    ReplaceRealEstate(lower, r);
    SlugFrom(name, lower, lower, r);
  }

  lemma LowerEducation(name: string, lower: string)
    requires name == "Education" && lower == "education"
    ensures ToLower(name) == lower && ' ' !in lower
  {
  }

  lemma SlugEducation(name: string, r: string)
    requires name == "Education" && r == "education"
    ensures Slug(name) == r
  {
    LowerEducation(name, r);
    SlugOneWord(name, r);
  }

  lemma LowerTechSaas(name: string, lower: string)
    requires name == "Tech & SaaS" && lower == "tech & saas"
    ensures ToLower(name) == lower
  {
  }

  lemma ReplaceTechSaas(lower: string, r: string)
    requires lower == "tech & saas" && r == "tech-saas"
    ensures ReplaceFirst(lower, " & ", "-") == r
    ensures ReplaceFirst(r, " ", "-") == r
  {
    ReplaceAt(lower, " & ", "-", 4);
    ReplaceAbsent(r, " ", "-", ' ');
  }

  lemma SlugTechSaas(name: string, lower: string, r: string)
    requires name == "Tech & SaaS" && lower == "tech & saas" && r == "tech-saas"
    ensures Slug(name) == r
  {
    LowerTechSaas(name, lower);
    ReplaceTechSaas(lower, r);
    SlugFrom(name, lower, r, r);
  }

  lemma LowerPortfolio(name: string, lower: string)
    requires name == "Portfolio" && lower == "portfolio"
    ensures ToLower(name) == lower && ' ' !in lower
  {
  }

  lemma SlugPortfolio(name: string, r: string)
    requires name == "Portfolio" && r == "portfolio"
    ensures Slug(name) == r
  {
    LowerPortfolio(name, r);
    SlugOneWord(name, r);
  }

  lemma LowerECommerce(name: string, lower: string)
    requires name == "E-commerce" && lower == "e-commerce"
    ensures ToLower(name) == lower && ' ' !in lower
  {
  }

  lemma SlugECommerce(name: string, r: string)
    requires name == "E-commerce" && r == "e-commerce"
    ensures Slug(name) == r
  {
    LowerECommerce(name, r);
    SlugOneWord(name, r);
  }

  /** The six cards produce the six catalog keys, in order, and no two cards share a key. */
  lemma CatalogSlugsOfIndustries()
    ensures |Industries| == |CatalogSlugs|
    ensures forall i :: 0 <= i < |Industries| ==> Slug(Industries[i]) == CatalogSlugs[i]
    ensures Distinct(CatalogSlugs)
  {
    SlugsInOrderA();
    SlugsInOrderB();
    forall i | 0 <= i < |Industries| ensures Slug(Industries[i]) == CatalogSlugs[i] {
      assert i in {0, 1, 2, 3, 4, 5};
    }
    CatalogSlugsDistinct();
  }

  lemma SlugsInOrderA()
    ensures Slug(Industries[0]) == CatalogSlugs[0]
    ensures Slug(Industries[1]) == CatalogSlugs[1]
    ensures Slug(Industries[2]) == CatalogSlugs[2]
  {
    SlugBusiness(Industries[0], CatalogSlugs[0]);
    SlugRealEstate(Industries[1], "real estate", CatalogSlugs[1]);
    SlugEducation(Industries[2], CatalogSlugs[2]);
  }

  lemma SlugsInOrderB()
    ensures Slug(Industries[3]) == CatalogSlugs[3]
    ensures Slug(Industries[4]) == CatalogSlugs[4]
    ensures Slug(Industries[5]) == CatalogSlugs[5]
  {
    SlugTechSaas(Industries[3], "tech & saas", CatalogSlugs[3]);
    SlugPortfolio(Industries[4], CatalogSlugs[4]);
    SlugECommerce(Industries[5], CatalogSlugs[5]);
  }

  lemma CatalogSlugsDistinct()
    ensures Distinct(CatalogSlugs)
  {
  }

  /**
   * When the preview is a catalog key exactly one card carries the ring, and
   * it is the card whose key is the preview; otherwise no card carries it.
   */
  lemma ExactlyOneRing(preview: string)
    ensures Count(CatalogSlugs, preview) == if preview in CatalogSlugs then 1 else 0
    ensures forall i :: 0 <= i < |Industries| ==>
              (RingShown(preview, Industries[i]) <==> CatalogSlugs[i] == preview)
  {
    CatalogSlugsOfIndustries();
    CountDistinct(CatalogSlugs, preview);
  }

  /** Only the first "-" of the key becomes a space; everything else is kept. */
  lemma PreviewLabelFirstDash(preview: string, i: int)
    requires FirstOccurrence(preview, "-", i)
    ensures PreviewLabel(preview) == preview[..i] + " " + preview[i + 1..]
    ensures '-' !in preview[..i]
  {
    ReplaceFirstSpec(preview, "-", " ");
    forall k | 0 <= k < i ensures preview[..i][k] != '-' {
      assert !OccursAt(preview, "-", k);
      assert preview[k..k + 1] == [preview[k]];
    }
  }

  /** A key without "-" is shown as it is. */
  lemma PreviewLabelNoDash(preview: string)
    requires '-' !in preview
    ensures PreviewLabel(preview) == preview
  {
    ReplaceAbsent(preview, "-", " ", '-');
  }

  /** A key whose only "-" is at index `j` is shown with a space there. */
  lemma PreviewLabelOneDash(preview: string, j: int, text: string)
    requires 0 <= j < |preview| && preview[j] == '-' && '-' !in preview[..j]
    requires text == preview[..j] + " " + preview[j + 1..]
    ensures PreviewLabel(preview) == text
  {
    assert preview[j..j + 1] == "-";
    ReplaceAt(preview, "-", " ", j);
  }

  /** The live-preview texts of the six catalog keys: each dash becomes a space. */
  lemma CatalogPreviewLabels()
    ensures forall i :: 0 <= i < |CatalogSlugs| ==> PreviewLabel(CatalogSlugs[i]) == CatalogLabels[i]
  {
    LabelsWithoutDash(CatalogSlugs[0], CatalogSlugs[2], CatalogSlugs[4]);
    LabelsDashAtFour(CatalogSlugs[1], CatalogLabels[1], CatalogSlugs[3], CatalogLabels[3]);
    LabelECommerce(CatalogSlugs[5], CatalogLabels[5]);
    forall i | 0 <= i < |CatalogSlugs| ensures PreviewLabel(CatalogSlugs[i]) == CatalogLabels[i] {
      assert i in {0, 1, 2, 3, 4, 5};
    }
  }

  /** The three one-word keys are shown as they are. */
  lemma LabelsWithoutDash(a: string, b: string, c: string)
    requires a == "business" && b == "education" && c == "portfolio"
    ensures PreviewLabel(a) == a && PreviewLabel(b) == b && PreviewLabel(c) == c
  {
    PreviewLabelNoDash(a);
    PreviewLabelNoDash(b);
    PreviewLabelNoDash(c);
  }

  /** The two two-word keys whose dash sits at index 4. */
  lemma LabelsDashAtFour(a: string, ta: string, b: string, tb: string)
    requires a == "real-estate" && ta == "real estate"
    requires b == "tech-saas" && tb == "tech saas"
    ensures PreviewLabel(a) == ta && PreviewLabel(b) == tb
  {
    PreviewLabelOneDash(a, 4, ta);
    PreviewLabelOneDash(b, 4, tb);
  }

  lemma LabelECommerce(preview: string, text: string)
    requires preview == "e-commerce" && text == "e commerce"
    ensures PreviewLabel(preview) == text
  {
    PreviewLabelOneDash(preview, 1, text);
  }

  /**
   * Only the first "-" is rewritten: a key with dashes is shown with exactly
   * one dash fewer, so every later dash survives.
   */
  lemma PreviewLabelDropsOneDash(preview: string)
    ensures '-' in preview ==> Count(PreviewLabel(preview), '-') == Count(preview, '-') - 1
    ensures '-' !in preview ==> PreviewLabel(preview) == preview
  {
    if '-' in preview {
      var i :| 0 <= i < |preview| && preview[i] == '-';
      assert OccursAt(preview, "-", i) by {
        assert preview[i..i + 1] == [preview[i]];
      }
      IndexOfSpec(preview, "-");
      var j := IndexOf(preview, "-");
      assert preview[j..j + 1][0] == preview[j];
      PreviewLabelFirstDash(preview, j);
      assert preview == preview[..j] + "-" + preview[j + 1..];
      CountAppend(preview[..j], "-", '-');
      CountAppend(preview[..j] + "-", preview[j + 1..], '-');
      CountAppend(preview[..j], " ", '-');
      CountAppend(preview[..j] + " ", preview[j + 1..], '-');
    } else {
      PreviewLabelNoDash(preview);
    }
  }

  // ---------------------------------------------------------------------------
  // The page state

  /** The wizard's component state: the current step and the preview key. */
  class Wizard {
    var step: int
    var preview: string

    /** The step never leaves [1, 3]. */
    ghost predicate Valid()
      reads this
    {
      InRange(step)
    }

    constructor ()
      ensures Valid()
      ensures step == FirstStep && preview == InitialPreview
      ensures preview in CatalogSlugs
    {
      step := FirstStep;
      preview := InitialPreview;
    }

    /** The "Continue" buttons. */
    method NextStep()
      requires Valid()
      modifies this
      ensures Valid()
      ensures step == Advance(old(step)) && preview == old(preview)
    {
      step := Advance(step);
    }

    /** The "Back" buttons. */
    method PrevStep()
      requires Valid()
      modifies this
      ensures Valid()
      ensures step == Retreat(old(step)) && preview == old(preview)
    {
      step := Retreat(step);
    }

    /** A click on an industry card: the preview becomes the card's key and the step stays. */
    method SelectIndustry(industry: string)
      requires Valid()
      modifies this
      ensures Valid()
      ensures preview == Slug(industry) && step == old(step)
      ensures industry in Industries ==> preview in CatalogSlugs
    {
      CatalogSlugsOfIndustries();
      preview := Slug(industry);
    }

    /** The number of step panels rendered in the current state. */
    function PanelsShown(): (n: nat)
      reads this
      requires Valid()
      ensures n == 1
    {
      ExactlyOnePanel(step);
      Count(Steps, step)
    }

    /**
     * The number of industry cards carrying the selection ring in the current
     * state. The cards are part of the first panel, so at the other steps no
     * card, and hence no ring, is rendered.
     */
    function RingsShown(): (n: nat)
      reads this
      ensures n == if step == FirstStep && preview in CatalogSlugs then 1 else 0
    {
      ExactlyOneRing(preview);
      if PanelShown(step, FirstStep) then Count(CatalogSlugs, preview) else 0
    }
  }
}
