/** The enumerations of the bot, each with the integer code it is persisted as. */
module Enumerations {
  import opened Primitives

  /** Life cycle states of a guild event. */
  datatype EventStatus = Created | Active | Paused | Completed | Cancelled {

    /** The enum's integer value; 4 and 5 are unused. */
    function Code(): (c: int)
      ensures 0 <= c <= 6 && c != 4 && c != 5
    {
      match this
      case Created => 0
      case Active => 1
      case Paused => 2
      case Completed => 3
      case Cancelled => 6
    }

    /** The member's name, as `ToString()` renders it in messages. */
    function Name(): string
    {
      match this
      case Created => "Created"
      case Active => "Active"
      case Paused => "Paused"
      case Completed => "Completed"
      case Cancelled => "Cancelled"
    }

    /** Only a Created event may still be edited by its organizer. */
    predicate IsOrganizerEditable()
    {
      this == Created
    }
  }

  /** Reads a persisted EventStatus code back; codes are distinct, so this inverts Code. */
  function EventStatusFromCode(c: int): (r: Option<EventStatus>)
    ensures forall s: EventStatus :: r == Some(s) <==> s.Code() == c
    ensures r.None? <==> c !in {0, 1, 2, 3, 6}
  {
    if c == 0 then Some(Created)
    else if c == 1 then Some(Active)
    else if c == 2 then Some(Paused)
    else if c == 3 then Some(Completed)
    else if c == 6 then Some(Cancelled)
    else None
  }

  /** Life cycle states of a loot pile, stored as a byte. */
  datatype LootStatus = LootCreated | LootOpen | LootClosed | LootCompleted | LootCancelled {
    function Code(): Byte
    {
      match this
      case LootCreated => 0
      case LootOpen => 1
      case LootClosed => 2
      case LootCompleted => 3
      case LootCancelled => 4
    }
  }

  function LootStatusFromCode(c: int): (r: Option<LootStatus>)
    ensures forall s: LootStatus :: r == Some(s) <==> s.Code() == c
    ensures r.Some? <==> 0 <= c <= 4
  {
    if c == 0 then Some(LootCreated)
    else if c == 1 then Some(LootOpen)
    else if c == 2 then Some(LootClosed)
    else if c == 3 then Some(LootCompleted)
    else if c == 4 then Some(LootCancelled)
    else None
  }

  /** Who may see a loot pile, stored as a byte. */
  datatype LootType = Restricted | Open {
    function Code(): Byte
    {
      match this
      case Restricted => 0
      case Open => 1
    }
  }

  function LootTypeFromCode(c: int): (r: Option<LootType>)
    ensures forall t: LootType :: r == Some(t) <==> t.Code() == c
    ensures r.Some? <==> 0 <= c <= 1
  {
    if c == 0 then Some(Restricted) else if c == 1 then Some(Open) else None
  }

  /** How loot is distributed, stored as a byte. */
  datatype LootRollType = Roll | Bid {
    function Code(): Byte
    {
      match this
      case Roll => 0
      case Bid => 1
    }
  }

  function LootRollTypeFromCode(c: int): (r: Option<LootRollType>)
    ensures forall t: LootRollType :: r == Some(t) <==> t.Code() == c
    ensures r.Some? <==> 0 <= c <= 1
  {
    if c == 0 then Some(Roll) else if c == 1 then Some(Bid) else None
  }

  /** The outcome kind of a service operation: Success or one of five failure kinds. */
  datatype OperationStatus = Success | InvalidState | Unauthorized | NotFound | ValidationError | Failed {

    /** The implicit enum value, in declaration order. */
    function Code(): int
    {
      match this
      case Success => 0
      case InvalidState => 1
      case Unauthorized => 2
      case NotFound => 3
      case ValidationError => 4
      case Failed => 5
    }

    predicate IsFailureKind()
    {
      this != Success
    }
  }

  /** Success has code 0 and the five failure kinds take 1 to 5. */
  function OperationStatusFromCode(c: int): (r: Option<OperationStatus>)
    ensures forall s: OperationStatus :: r == Some(s) <==> s.Code() == c
    ensures r.Some? <==> 0 <= c <= 5
    ensures r.Some? ==> (r.value.IsFailureKind() <==> c != 0)
  {
    if c == 0 then Some(Success)
    else if c == 1 then Some(InvalidState)
    else if c == 2 then Some(Unauthorized)
    else if c == 3 then Some(NotFound)
    else if c == 4 then Some(ValidationError)
    else if c == 5 then Some(Failed)
    else None
  }
}
