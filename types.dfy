/**
 * The closed variant types of the application: the learner's math and coding
 * backgrounds (each member carrying the label shown on its choice button and
 * written into the generation instruction), the learner's context, and the
 * three phases of the application.
 */
module Types {

  import opened Wrappers

  datatype MathLevel = Beginner | Intermediate | Advanced

  datatype CodingLevel = NoCoding | Basic | Advanced

  /** The learner's answers, handed over once per lesson attempt; the interest is free text. */
  datatype UserContext = UserContext(mathLevel: MathLevel, codingLevel: CodingLevel, specificInterest: string)

  datatype AppState = Onboarding | Generating | Reading

  /** The string value each MathLevel member carries. */
  function MathLabel(m: MathLevel): string
  {
    match m
    case Beginner => "No formal background"
    case Intermediate => "Comfortable with basic Statistics"
    case Advanced => "Advanced (Calculus, Linear Algebra)"
  }

  /** The string value each CodingLevel member carries. */
  function CodingLabel(c: CodingLevel): string
  {
    match c
    case NoCoding => "No coding experience"
    case Basic => "Basic (Python/Scripting)"
    case Advanced => "Advanced (Software Engineering/ML)"
  }

  /** The members of MathLevel in declaration order, as enumerating the enum's values yields them. */
  function AllMathLevels(): (ms: seq<MathLevel>)
    ensures forall m: MathLevel :: m in ms
    ensures forall i, j :: 0 <= i < j < |ms| ==> ms[i] != ms[j]
  {
    var ms := [MathLevel.Beginner, MathLevel.Intermediate, MathLevel.Advanced];
    assert forall m: MathLevel :: m in ms by {
      forall m: MathLevel ensures m in ms {
        if m.Beginner? { assert ms[0] == m; }
        else if m.Intermediate? { assert ms[1] == m; }
        else { assert ms[2] == m; }
      }
    }
    ms
  }

  /** The members of CodingLevel in declaration order. */
  function AllCodingLevels(): (cs: seq<CodingLevel>)
    ensures forall c: CodingLevel :: c in cs
    ensures forall i, j :: 0 <= i < j < |cs| ==> cs[i] != cs[j]
  {
    var cs := [CodingLevel.NoCoding, CodingLevel.Basic, CodingLevel.Advanced];
    assert forall c: CodingLevel :: c in cs by {
      forall c: CodingLevel ensures c in cs {
        if c.NoCoding? { assert cs[0] == c; }
        else if c.Basic? { assert cs[1] == c; }
        else { assert cs[2] == c; }
      }
    }
    cs
  }

  /** The member carrying a given label: the labels are pairwise distinct, so this inverts MathLabel. */
  function MathLevelOfLabel(s: string): (r: Option<MathLevel>)
    ensures r.Some? ==> MathLabel(r.value) == s
    ensures forall m: MathLevel :: MathLabel(m) == s ==> r == Some(m)
  {
    if s == MathLabel(MathLevel.Beginner) then Some(MathLevel.Beginner)
    else if s == MathLabel(MathLevel.Intermediate) then Some(MathLevel.Intermediate)
    else if s == MathLabel(MathLevel.Advanced) then Some(MathLevel.Advanced)
    else None
  }

  /** The member carrying a given label: this inverts CodingLabel. */
  function CodingLevelOfLabel(s: string): (r: Option<CodingLevel>)
    ensures r.Some? ==> CodingLabel(r.value) == s
    ensures forall c: CodingLevel :: CodingLabel(c) == s ==> r == Some(c)
  {
    if s == CodingLabel(CodingLevel.NoCoding) then Some(CodingLevel.NoCoding)
    else if s == CodingLabel(CodingLevel.Basic) then Some(CodingLevel.Basic)
    else if s == CodingLabel(CodingLevel.Advanced) then Some(CodingLevel.Advanced)
    else None
  }

  /** Equal labels mean equal members, for both enumerations. */
  lemma LabelsInjective(m1: MathLevel, m2: MathLevel, c1: CodingLevel, c2: CodingLevel)
    ensures MathLabel(m1) == MathLabel(m2) ==> m1 == m2
    ensures CodingLabel(c1) == CodingLabel(c2) ==> c1 == c2
  {
  }
}
