/** The seminar edit form and the validity its annotations describe. */
module EditViewModel {
  import opened DataConstants
  import opened DataAnnotations
  import opened SeminarEntity

  /** The fields the Add and Edit pages post. The category drop-down list is view data and not part of the form. */
  datatype SeminarForm = SeminarForm(
    topic: string,
    lecturer: string,
    details: string,
    organizerId: string,
    dateAndTime: DateTime,
    duration: int,
    categoryId: int)

  /** Every annotation of the form holds. [Required] on the schedule and the
      category id always holds: they are value types and are never null.
      A valid form has every text field within its inclusive length range,
      a non-empty organizer id and a duration of 30..180 minutes. */
  predicate ValidForm(f: SeminarForm)
    ensures ValidForm(f) ==>
      && 5 <= |f.topic| <= 100 && 5 <= |f.lecturer| <= 60 && 10 <= |f.details| <= 500
      && f.organizerId != "" && 30 <= f.duration <= 180
  {
    && Required(f.topic) && StringLength(f.topic, SeminarTopicMaxLength, SeminarTopicMinLength)
    && Required(f.lecturer) && StringLength(f.lecturer, SeminarLecturerMaxLength, SeminarLecturerMinLength)
    && Required(f.details) && StringLength(f.details, SeminarDetailsMaxLength, SeminarDetailsMinLength)
    && Required(f.organizerId)
    && InRange(f.duration, SeminarDurationMinValue, SeminarDurationMaxValue)
  }

  /** Within an otherwise valid form a non-blank topic is accepted exactly when
      it has 5..100 characters, both inclusive. */
  lemma TopicLength(f: SeminarForm, t: string)
    requires ValidForm(f)
    requires Required(t)
    ensures ValidForm(f.(topic := t)) <==> 5 <= |t| <= 100
  {
  }

  /** A 4-character topic is rejected and a 5-character one accepted; a topic
      of five spaces is rejected although its length is in range. */
  lemma TopicBoundary(f: SeminarForm)
    requires ValidForm(f)
    ensures !ValidForm(f.(topic := "Grap"))
    ensures ValidForm(f.(topic := "Graph"))
    ensures !ValidForm(f.(topic := "     "))
  {
    assert !IsWhiteSpace("Graph"[0]);
  }

  /** Within an otherwise valid form a non-blank lecturer is accepted exactly
      at 5..60 characters and non-blank details exactly at 10..500. */
  lemma LecturerAndDetailsLength(f: SeminarForm, l: string, d: string)
    requires ValidForm(f)
    requires Required(l) && Required(d)
    ensures ValidForm(f.(lecturer := l)) <==> 5 <= |l| <= 60
    ensures ValidForm(f.(details := d)) <==> 10 <= |d| <= 500
  {
  }

  /** Within an otherwise valid form the duration alone decides, 30..180 both
      inclusive: 29 and 181 fail, 30 and 180 pass. */
  lemma DurationRange(f: SeminarForm, d: int)
    requires ValidForm(f)
    ensures ValidForm(f.(duration := d)) <==> 30 <= d <= 180
    ensures !ValidForm(f.(duration := 29)) && !ValidForm(f.(duration := 181))
    ensures ValidForm(f.(duration := 30)) && ValidForm(f.(duration := 180))
  {
  }

  /** A valid form names an organizer: its organizer id is not whitespace only. */
  lemma OrganizerRequired(f: SeminarForm)
    requires ValidForm(f)
    ensures !IsBlank(f.organizerId)
  {
  }
}
