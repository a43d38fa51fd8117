/** The step-generation settings form: its fields, defaults and validation. */
module StepConfigurationShared {

  /** The randomness level the placement search aims for. */
  datatype RandomnessScore = NoRandomness | Low | Medium | High

  /** The form's values. The string fields are typed as unions ('true' |
      'false', 'swing' | 'twohands' | 'both') but held as plain strings. */
  datatype BaseStepConfiguration = BaseStepConfiguration(
    crossover: string,
    hands: string,
    jumpMode: string,
    minGapForAutoSnapping: int,
    minGapForCrossovers: int,
    minGapForDoubleTap: int,
    minGapForJumps: int,
    minGapForTapJumps: int,
    minGapForJumpTap: int)

  const BaseStepDefaultValues: BaseStepConfiguration :=
    BaseStepConfiguration("false", "false", "swing", 24, 4, 4, 8, 8, 8)

  /** `Yup.number().min(4).max(32).required()` */
  predicate GapInRange(g: int)
  {
    4 <= g <= 32
  }

  /** `Yup.string().required()`: present and not the empty string. */
  predicate RequiredString(s: string)
  {
    s != ""
  }

  /** The validation schema: three required strings and six bounded numbers. */
  predicate Valid(c: BaseStepConfiguration)
  {
    && RequiredString(c.crossover)
    && RequiredString(c.jumpMode)
    && RequiredString(c.hands)
    && GapInRange(c.minGapForCrossovers)
    && GapInRange(c.minGapForDoubleTap)
    && GapInRange(c.minGapForJumps)
    && GapInRange(c.minGapForTapJumps)
    && GapInRange(c.minGapForAutoSnapping)
    && GapInRange(c.minGapForJumpTap)
  }

  /** The default values are the documented ones and pass the schema. */
  lemma DefaultsAreValid()
    ensures BaseStepDefaultValues.crossover == "false" && BaseStepDefaultValues.hands == "false"
    ensures BaseStepDefaultValues.jumpMode == "swing" && BaseStepDefaultValues.minGapForAutoSnapping == 24
    ensures BaseStepDefaultValues.minGapForCrossovers == 4 && BaseStepDefaultValues.minGapForDoubleTap == 4
    ensures BaseStepDefaultValues.minGapForJumps == 8 && BaseStepDefaultValues.minGapForTapJumps == 8
    ensures BaseStepDefaultValues.minGapForJumpTap == 8
    ensures Valid(BaseStepDefaultValues)
  {
  }

  /** Changing one gap keeps the configuration valid exactly when the new
      value lies in 4..32. */
  lemma GapValidIffInRange(c: BaseStepConfiguration, g: int)
    requires Valid(c)
    ensures Valid(c.(minGapForDoubleTap := g)) <==> 4 <= g <= 32
    ensures Valid(c.(minGapForCrossovers := g)) <==> 4 <= g <= 32
    ensures Valid(c.(minGapForJumps := g)) <==> 4 <= g <= 32
    ensures Valid(c.(minGapForTapJumps := g)) <==> 4 <= g <= 32
    ensures Valid(c.(minGapForJumpTap := g)) <==> 4 <= g <= 32
    ensures Valid(c.(minGapForAutoSnapping := g)) <==> 4 <= g <= 32
  {
  }

  /** The schema bounds the range only: a gap of 5 and a jump mode outside
      the union type are accepted. */
  lemma SchemaOnlyBoundsRange()
    ensures Valid(BaseStepDefaultValues.(minGapForDoubleTap := 5, jumpMode := "sideways"))
  {
  }
}
