/**
 * The onboarding form: three fields with fixed defaults, one handler per
 * field, submission of the three values as one context, and the choice
 * buttons built from every member of each level enumeration.
 */
module Onboarding {

  import opened Types

  /** The form's in-progress selections. */
  class OnboardingForm {
    var mathLevel: MathLevel
    var codingLevel: CodingLevel
    var specificInterest: string

    /** The defaults: the first member of each enumeration and an empty interest. */
    constructor ()
      ensures mathLevel == MathLevel.Beginner && codingLevel == CodingLevel.NoCoding && specificInterest == ""
      ensures mathLevel == AllMathLevels()[0] && codingLevel == AllCodingLevels()[0]
    {
      mathLevel := MathLevel.Beginner;
      codingLevel := CodingLevel.NoCoding;
      specificInterest := "";
    }

    /** Clicking a math button changes the math level only. */
    method SelectMath(level: MathLevel)
      modifies this
      ensures mathLevel == level
      ensures codingLevel == old(codingLevel) && specificInterest == old(specificInterest)
    {
      mathLevel := level;
    }

    /** Clicking a coding button changes the coding level only. */
    method SelectCoding(level: CodingLevel)
      modifies this
      ensures codingLevel == level
      ensures mathLevel == old(mathLevel) && specificInterest == old(specificInterest)
    {
      codingLevel := level;
    }

    /** Typing replaces the interest with the input's value, verbatim, and changes nothing else. */
    method TypeInterest(value: string)
      modifies this
      ensures specificInterest == value
      ensures mathLevel == old(mathLevel) && codingLevel == old(codingLevel)
    {
      specificInterest := value;
    }

    /** Submission hands over exactly the current three values, without validation, and changes nothing. */
    method Submit() returns (ctx: UserContext)
      ensures ctx.mathLevel == mathLevel && ctx.codingLevel == codingLevel
      ensures ctx.specificInterest == specificInterest
    {
      ctx := UserContext(mathLevel, codingLevel, specificInterest);
    }
  }

  /** One choice button: the member it selects, its label, and whether it is highlighted. */
  datatype Choice<T> = Choice(level: T, text: string, selected: bool)

  /** One button per member, in the order given, highlighted when it equals the current selection. */
  function Choices<T(==)>(members: seq<T>, current: T, labelOf: T -> string): (bs: seq<Choice<T>>)
    ensures |bs| == |members|
    ensures forall i :: 0 <= i < |bs| ==> bs[i].level == members[i] && bs[i].text == labelOf(members[i])
    ensures forall i :: 0 <= i < |bs| ==> (bs[i].selected <==> members[i] == current)
  {
    seq(|members|, i requires 0 <= i < |members| => Choice(members[i], labelOf(members[i]), members[i] == current))
  }

  function MathChoices(current: MathLevel): seq<Choice<MathLevel>>
  {
    Choices(AllMathLevels(), current, MathLabel)
  }

  function CodingChoices(current: CodingLevel): seq<Choice<CodingLevel>>
  {
    Choices(AllCodingLevels(), current, CodingLabel)
  }

  /** Over distinct members that include the current one, exactly one button is highlighted. */
  lemma ExactlyOneSelected<T>(members: seq<T>, current: T, labelOf: T -> string)
    requires forall i, j :: 0 <= i < j < |members| ==> members[i] != members[j]
    requires current in members
    ensures var bs := Choices(members, current, labelOf);
      (exists i :: 0 <= i < |bs| && bs[i].selected) &&
      forall i, j :: 0 <= i < |bs| && 0 <= j < |bs| && bs[i].selected && bs[j].selected ==> i == j
  {
    var bs := Choices(members, current, labelOf);
    var k :| 0 <= k < |members| && members[k] == current;
    assert bs[k].selected;
    forall i, j | 0 <= i < |bs| && 0 <= j < |bs| && bs[i].selected && bs[j].selected ensures i == j {
      assert members[i] == current && members[j] == current;
    }
  }

  /**
   * The math buttons: one per member in declaration order, each showing the
   * member's label, and exactly one highlighted, the current level.
   */
  lemma MathChoicesExact(current: MathLevel)
    ensures |MathChoices(current)| == 3
    ensures MathChoices(current)[0].level == MathLevel.Beginner
    ensures MathChoices(current)[1].level == MathLevel.Intermediate
    ensures MathChoices(current)[2].level == MathLevel.Advanced
    ensures forall i :: 0 <= i < 3 ==> MathChoices(current)[i].text == MathLabel(MathChoices(current)[i].level)
    ensures forall i :: 0 <= i < 3 ==> (MathChoices(current)[i].selected <==> MathChoices(current)[i].level == current)
    ensures exists i :: 0 <= i < 3 && MathChoices(current)[i].selected
    ensures forall i, j :: 0 <= i < 3 && 0 <= j < 3 && MathChoices(current)[i].selected && MathChoices(current)[j].selected ==> i == j
  {
    ExactlyOneSelected(AllMathLevels(), current, MathLabel);
  }

  /** The coding buttons: one per member in declaration order, exactly one highlighted, the current level. */
  lemma CodingChoicesExact(current: CodingLevel)
    ensures |CodingChoices(current)| == 3
    ensures CodingChoices(current)[0].level == CodingLevel.NoCoding
    ensures CodingChoices(current)[1].level == CodingLevel.Basic
    ensures CodingChoices(current)[2].level == CodingLevel.Advanced
    ensures forall i :: 0 <= i < 3 ==> CodingChoices(current)[i].text == CodingLabel(CodingChoices(current)[i].level)
    ensures forall i :: 0 <= i < 3 ==> (CodingChoices(current)[i].selected <==> CodingChoices(current)[i].level == current)
    ensures exists i :: 0 <= i < 3 && CodingChoices(current)[i].selected
    ensures forall i, j :: 0 <= i < 3 && 0 <= j < 3 && CodingChoices(current)[i].selected && CodingChoices(current)[j].selected ==> i == j
  {
    ExactlyOneSelected(AllCodingLevels(), current, CodingLabel);
  }
}
