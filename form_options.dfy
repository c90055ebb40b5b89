/**
 * The option lists that the home form and the self-test setup form both
 * render in their selects: the classes 6 to 12, five subjects and three
 * difficulties. A select can only ever hold one of its option values.
 */
module FormOptions {
  import opened Js

  /** `Array.from({ length: 7 }, (_, i) => i + 6)` */
  function Grades(): (gs: seq<int>)
    ensures |gs| == 7 && forall i | 0 <= i < 7 :: gs[i] == i + 6
  {
    seq(7, i => i + 6)
  }

  /** The value of each class option, `String(g)`. */
  function GradeValues(): (vs: seq<string>)
    ensures |vs| == 7 && forall i | 0 <= i < 7 :: vs[i] == NatToString(i + 6)
  {
    seq(7, i requires 0 <= i < 7 => NatToString(i + 6))
  }

  const Subjects: seq<string> := ["Maths", "Science", "English", "Hindi", "Social Science"]

  const Difficulties: seq<string> := ["Easy", "Medium", "Hard"]

  /** `parseInt(v, 10)` of any class option's value is that option's class: an integer in [6, 12]. */
  lemma ParsedGradeInRange(v: string)
    requires v in GradeValues()
    ensures ParseDigits(v).Some? && ParseDigits(v).value in Grades()
    ensures 6 <= ParseDigits(v).value <= 12
  {
    var i :| 0 <= i < 7 && GradeValues()[i] == v;
    ParseNatToString(i + 6);
    assert Grades()[i] == i + 6;
  }

  /** The initial class of both forms, `"8"`, is one of the options. */
  lemma InitialGradeOffered()
    ensures "8" in GradeValues()
  {
    assert GradeValues()[2] == NatToString(8) == "8";
  }
}
