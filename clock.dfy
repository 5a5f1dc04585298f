/**
 * The clock the application and report models consult when they stamp a review or a
 * submission. They call `models.timezone.now()`, but both files import only
 * `django.db.models`, which has no attribute `timezone`: evaluating the expression raises
 * AttributeError, so no time is read and the `save()` that follows never runs. The repaired
 * model methods read `django.utils.timezone.now()` instead, whose value the model takes as a
 * parameter `now`.
 */
module Clock {

  /** The exception a failed attribute lookup raises: the module searched (`owner`) and the name missing. */
  datatype AttributeError = AttributeError(owner: string, name: string)

  /** The lookup of `timezone` in `django.db.models`. */
  const TimezoneMissing := AttributeError("django.db.models", "timezone")
}
