/**
 * The appointment record of the later revision. Its interface declares no
 * `id`, yet the page reads and sends `appointment.id`, which the server
 * assigns; here it is an optional field.
 */
module Records {
  import opened Wrappers
  import opened Clock

  datatype Status = Booked | CheckedIn | Finished

  datatype Preference = Male | Female | Specific

  datatype Appointment = Appointment(
    id: Option<string>,
    phone: string,
    massageType: string,
    customer: string,     // the assigned worker
    start: int,           // instants, in milliseconds
    end: int,
    status: Status,
    notes: Option<string>,
    preference: Preference,
    specificWorker: Option<string>
  )

  /** `appointment.id` is truthy: present and not the empty string. */
  predicate HasId(a: Appointment)
    ensures !HasId(a) <==> a.id == None || a.id == Some("")
  {
    a.id.Some? && a.id.value != ""
  }

  /** `start.getHours() * 60 + start.getMinutes()`. */
  function StartMinutes(a: Appointment): int {
    MinuteOfDay(a.start)
  }

  /** `end.getHours() * 60 + end.getMinutes()`. */
  function EndMinutes(a: Appointment): int {
    MinuteOfDay(a.end)
  }
}
