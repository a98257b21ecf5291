// The records of src/domain/models that the booking core works on.
module Models {
  import opened Results
  import opened Time

  type BookingId = nat
  type SessionId = nat
  type InviteeId = nat
  type Token = nat      // random management and invitation tokens

  type TimeZone = z: Zone | z.Valid() witness Zone(0, [])

  // A parsed "HH:MM" time.
  type ClockMinute = m: int | 0 <= m < 1440

  datatype Window = Window(start: ClockMinute, end: ClockMinute, capacity: Option<int>)

  datatype WeekConfig = WeekConfig(
    monday: seq<Window>, tuesday: seq<Window>, wednesday: seq<Window>, thursday: seq<Window>,
    friday: seq<Window>, saturday: seq<Window>, sunday: seq<Window>)
  {
    // 1970-01-01 was a Thursday.
    function On(d: Date): seq<Window> {
      match (d + 3) % 7
      case 0 => monday
      case 1 => tuesday
      case 2 => wednesday
      case 3 => thursday
      case 4 => friday
      case 5 => saturday
      case _ => sunday
    }

    // The weekdays follow each other from that Thursday on, week after week.
    lemma WeekdaysFollow(d: Date)
      ensures [On(0), On(1), On(2), On(3), On(4), On(5), On(6)]
              == [thursday, friday, saturday, sunday, monday, tuesday, wednesday]
      ensures On(d + 7) == On(d)
    {
    }
  }

  datatype ScheduleType = Recurring | Manual

  datatype AccessMode = Open | Restricted | Closed | Unknown

  datatype Event = Event(
    zone: TimeZone,
    schedule: ScheduleType,
    access: AccessMode,
    noticeGeneral: int,     // minutes
    noticeFirst: int,
    activeStart: Instant,
    activeEnd: Instant,
    duration: nat,          // minutes
    interval: nat,
    capacity: int,
    config: WeekConfig,
    allowCancel: bool,
    allowReschedule: bool)

  datatype Override = Override(
    date: Date,
    unavailable: bool,
    config: Option<WeekConfig>,
    capacity: Option<int>,
    location: Option<string>)

  datatype Session = Session(id: SessionId, start: Instant, end: Instant, capacity: int, location: Option<string>,
    host: Option<string>)

  datatype Status = Confirmed | Cancelled

  datatype Booking = Booking(
    id: BookingId,
    invitee: Option<InviteeId>,
    start: Instant,
    end: Instant,
    name: string,
    email: string,
    location: Option<string>,
    status: Status,
    managementToken: Token,
    details: Details)

  // What only an admin sets.
  datatype Details = Details(labelId: Option<string>, token: Option<string>, payout: Option<int>)

  // A text field of an edit: left alone, cleared by the empty text, or set.
  function EditText(before: Option<string>, text: Option<string>): Option<string> {
    if text.None? then before else if text.value == "" then None else text
  }

  // Two half-open intervals meet.
  predicate Overlap(s1: Instant, e1: Instant, s2: Instant, e2: Instant) {
    s1 < e2 && s2 < e1
  }

  predicate Live(b: Booking) {
    b.status != Cancelled
  }
}
