/**
 * The records of the Healthpoint clinic directory: the closed set of
 * eligibility instructions, a raw directory entry as decoded from JSON, and
 * the tagged record that carries the `isHealthpoint` discriminant.
 */
module HealthpointLocations {
  import opened Wrappers

  /** The closed enumeration of eligibility instructions a clinic may list. */
  datatype Instruction =
    | AnyoneEligible
    | MakeAppointment
    | EnrolledOnly
    | WalkIn
    | InvitationOnly
    | DriveThrough
    | AllowsBookings

  /** The string value each instruction has in the directory's JSON. */
  function InstructionText(i: Instruction): string
  {
    match i
    case AnyoneEligible => "Anyone currently eligible can access"
    case MakeAppointment => "Make an appointment"
    case EnrolledOnly => "Eligible GP enrolled patients only"
    case WalkIn => "Walk in"
    case InvitationOnly => "By invitation only"
    case DriveThrough => "Drive through"
    case AllowsBookings => "Allows bookings"
  }

  /** Reads an instruction back from its JSON string; `None` for any other string. */
  function ParseInstruction(s: string): (r: Option<Instruction>)
    ensures r.Some? ==> InstructionText(r.value) == s
  {
    if s == "Anyone currently eligible can access" then Some(AnyoneEligible)
    else if s == "Make an appointment" then Some(MakeAppointment)
    else if s == "Eligible GP enrolled patients only" then Some(EnrolledOnly)
    else if s == "Walk in" then Some(WalkIn)
    else if s == "By invitation only" then Some(InvitationOnly)
    else if s == "Drive through" then Some(DriveThrough)
    else if s == "Allows bookings" then Some(AllowsBookings)
    else None
  }

  /** Every instruction is read back from its own string, so the seven strings are distinct. */
  lemma ParseInstructionText(i: Instruction)
    ensures ParseInstruction(InstructionText(i)) == Some(i)
  {
  }

  /**
   * Decodes a JSON list of instruction strings. A string that is not one of
   * the seven values is dropped.
   */
  function ParseInstructions(ss: seq<string>): (decoded: seq<Instruction>)
    ensures forall i :: i in decoded <==> InstructionText(i) in ss
  {
    if ss == [] then []
    else
      var rest := ParseInstructions(ss[1..]);
      var head := ParseInstruction(ss[0]);
      assert forall i :: InstructionText(i) == ss[0] ==> head == Some(i) by {
        forall i ensures InstructionText(i) == ss[0] ==> head == Some(i) {
          ParseInstructionText(i);
        }
      }
      assert forall i :: InstructionText(i) in ss <==> InstructionText(i) == ss[0] || InstructionText(i) in ss[1..] by {
        assert ss == [ss[0]] + ss[1..];
      }
      match head
      case Some(i) => [i] + rest
      case None => rest
  }

  /** Opening hours: per-date schedule and exceptions, and free-text notes. Never inspected here. */
  datatype OpeningHours = OpeningHours(
    schedule: map<string, string>,
    exceptions: map<string, string>,
    notesHtml: seq<string>)

  /** A directory entry as received. */
  datatype HealthpointLocationRaw = HealthpointLocationRaw(
    lat: real,
    lng: real,
    name: string,
    branch: string,
    isOpenToday: bool,
    openTodayHours: string,
    url: string,
    instructionLis: seq<Instruction>,
    address: string,
    faxNumber: string,
    telephone: string,
    opennningHours: OpeningHours)

  /** The fields of a directory entry with the provenance discriminant `isHealthpoint` added. */
  datatype TaggedRecord = TaggedRecord(
    isHealthpoint: bool,
    lat: real,
    lng: real,
    name: string,
    branch: string,
    isOpenToday: bool,
    openTodayHours: string,
    url: string,
    instructionLis: seq<Instruction>,
    address: string,
    faxNumber: string,
    telephone: string,
    opennningHours: OpeningHours)

  /** A tagged record whose discriminant has the literal type `true`. */
  type HealthpointLocation = t: TaggedRecord | t.isHealthpoint
    witness TaggedRecord(true, 0.0, 0.0, "", "", false, "", "", [], "", "", "", OpeningHours(map[], map[], []))

  /** Drops the discriminant, giving back the raw entry's fields. */
  function Untag(t: HealthpointLocation): HealthpointLocationRaw
  {
    HealthpointLocationRaw(t.lat, t.lng, t.name, t.branch, t.isOpenToday, t.openTodayHours,
      t.url, t.instructionLis, t.address, t.faxNumber, t.telephone, t.opennningHours)
  }

  /** `{ isHealthpoint: true, ...l }`: one raw entry with the discriminant added. */
  function Tag(l: HealthpointLocationRaw): (t: HealthpointLocation)
    ensures Untag(t) == l
  {
    TaggedRecord(true, l.lat, l.lng, l.name, l.branch, l.isOpenToday, l.openTodayHours,
      l.url, l.instructionLis, l.address, l.faxNumber, l.telephone, l.opennningHours)
  }

  /** A tagged record is determined by its raw fields, the discriminant being `true` by type. */
  lemma TagUntag(t: HealthpointLocation)
    ensures Tag(Untag(t)) == t
  {
  }

  /** The tagging `map` over the decoded JSON array. */
  function TagAll(raws: seq<HealthpointLocationRaw>): (ts: seq<HealthpointLocation>)
    ensures |ts| == |raws|
    ensures forall i :: 0 <= i < |ts| ==> Untag(ts[i]) == raws[i]
  {
    if raws == [] then [] else [Tag(raws[0])] + TagAll(raws[1..])
  }

  /** Drops the discriminant from every record. */
  function UntagAll(ts: seq<HealthpointLocation>): (raws: seq<HealthpointLocationRaw>)
    ensures |raws| == |ts|
    ensures forall i :: 0 <= i < |raws| ==> raws[i] == Untag(ts[i])
  {
    if ts == [] then [] else [Untag(ts[0])] + UntagAll(ts[1..])
  }

  /** Tagging and then dropping the tag gives back the input, field for field and in order. */
  lemma {:induction false} UntagAllTagAll(raws: seq<HealthpointLocationRaw>)
    ensures UntagAll(TagAll(raws)) == raws
  {
    if raws != [] {
      UntagAllTagAll(raws[1..]);
      assert TagAll(raws)[1..] == TagAll(raws[1..]);
    }
  }
}
