/** The numeric bounds shared by the seminar entity, its edit form and the category entity. */
module DataConstants {
  const SeminarTopicMinLength: int := 5
  const SeminarTopicMaxLength: int := 100

  const SeminarLecturerMinLength: int := 5
  const SeminarLecturerMaxLength: int := 60

  const SeminarDetailsMinLength: int := 10
  const SeminarDetailsMaxLength: int := 500

  const SeminarDurationMinValue: int := 30
  const SeminarDurationMaxValue: int := 180

  const CategoryNameMinLength: int := 3
  const CategoryNameMaxLength: int := 50

  /** Every bound pair is a non-empty range, so each constraint built from it can be met. */
  lemma BoundsAreOrdered()
    ensures 0 < SeminarTopicMinLength <= SeminarTopicMaxLength
    ensures 0 < SeminarLecturerMinLength <= SeminarLecturerMaxLength
    ensures 0 < SeminarDetailsMinLength <= SeminarDetailsMaxLength
    ensures 0 < SeminarDurationMinValue <= SeminarDurationMaxValue
    ensures 0 < CategoryNameMinLength <= CategoryNameMaxLength
  {
  }
}
