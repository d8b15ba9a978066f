/** The seminar entity and the limits its annotations place on a stored row. */
module SeminarEntity {
  import opened DataConstants
  import opened DataAnnotations

  /** A point in time, kept as the .NET tick count; the schedule is never interpreted. */
  datatype DateTime = DateTime(ticks: int)

  /** One row of the seminar table. The membership rows that belong to it live
      in the store beside it (see SeminarParticipants). */
  datatype Seminar = Seminar(
    id: int,
    topic: string,
    lecturer: string,
    details: string,
    organizerId: string,
    dateAndTime: DateTime,
    duration: int,
    categoryId: int)

  /** The entity-level limits: every text field required and bounded above,
      and the duration in [0, 180]. No lower bound on the text beyond "not blank". */
  predicate EntityValid(s: Seminar)
    ensures EntityValid(s) ==>
      && 1 <= |s.topic| <= 100 && 1 <= |s.lecturer| <= 60 && 1 <= |s.details| <= 500
      && s.organizerId != "" && 0 <= s.duration <= 180
  {
    && Required(s.topic) && MaxLength(s.topic, SeminarTopicMaxLength)
    && Required(s.lecturer) && MaxLength(s.lecturer, SeminarLecturerMaxLength)
    && Required(s.details) && MaxLength(s.details, SeminarDetailsMaxLength)
    && Required(s.organizerId)
    && InRange(s.duration, 0, SeminarDurationMaxValue)
  }

  /** `new Seminar()`: every text field is the empty string, which [Required] rejects. */
  function NewSeminar(): (s: Seminar)
    ensures s.topic == s.lecturer == s.details == s.organizerId == ""
    ensures !EntityValid(s)
  {
    Seminar(0, "", "", "", "", DateTime(0), 0, 0)
  }

  /** [Required] on an entity-valid seminar: none of its text fields and not
      its organizer id is empty or whitespace only. */
  lemma EntityBounds(s: Seminar)
    requires EntityValid(s)
    ensures !IsBlank(s.topic) && !IsBlank(s.lecturer) && !IsBlank(s.details)
    ensures !IsBlank(s.organizerId)
  {
  }

  /** The entity does accept a one-letter topic, lecturer and details and a
      zero-minute duration: its limits are looser than the form's. */
  lemma EntityAcceptsShortFields(s: Seminar)
    requires s.topic == "T" && s.lecturer == "L" && s.details == "D" && s.organizerId == "u"
    requires s.duration == 0
    ensures EntityValid(s)
  {
    assert !IsWhiteSpace(s.topic[0]) && !IsWhiteSpace(s.lecturer[0]);
    assert !IsWhiteSpace(s.details[0]) && !IsWhiteSpace(s.organizerId[0]);
  }

  /** Duration 181 is outside the entity range, and -1 too. */
  lemma EntityDurationLimits(s: Seminar)
    requires EntityValid(s)
    ensures !EntityValid(s.(duration := 181)) && !EntityValid(s.(duration := -1))
    ensures EntityValid(s.(duration := 0)) && EntityValid(s.(duration := 180))
  {
  }
}
