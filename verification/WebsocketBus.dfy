/**
 How a bus handles one message: claim the command, run the use case once, store
 the encoded frame and send those bytes, or answer a retry from the ledger.
 */
module WebsocketBus {
  import opened Wrappers
  import opened JsonText
  import opened RoomCodec
  import opened CommandLedger
  import opened Decks

  /** The frames a bus sends by itself. */
  datatype Message =
    | CommandAck(commandId: string, roomVersion: Option<nat>)
    | CommandError(code: string, commandId: string, message: string, roomVersion: Option<nat>)
    | StaleCommand(version: nat)

  /** A use case's failure in wire terms. */
  datatype Failure = Failure(code: string, message: string)

  const STALE_VERSION: string := "stale_version"

  /**
   A received message and what the world answers while it is handled: whether its type has a use case, the
   canonical form of its ID if it is a UUID, the use case's failure, the room's version if it can be loaded,
   whether the ledger fails the claim or the completion, and the times of the two.
   */
  datatype Delivery = Delivery(
    known: bool,
    commandId: string,
    canonical: Option<string>,
    failure: Option<Failure>,
    version: Option<nat>,
    claimFails: bool,
    storeFails: bool,
    claimedAt: CommandLedger.Time,
    finishedAt: CommandLedger.Time)

  const ACK_KEYS: seq<string> := ["commandId", "roomVersion", "type"]

  const ERROR_KEYS: seq<string> := ["code", "commandId", "message", "roomVersion", "type"]

  function VersionJson(version: Option<nat>): Option<Json> {
    if version.Some? then Some(IntJson(version.value)) else None
  }

  function Encode(m: Message): (frame: string)
    ensures IsFrame(frame)
  {
    match m
    case CommandAck(id, version) =>
      Text(Obj(Fields(ACK_KEYS, [Some(Str(id)), VersionJson(version), Some(Str("command-ack"))])))
    case CommandError(code, id, message, version) =>
      Text(Obj(Fields(ERROR_KEYS, [Some(Str(code)), Some(Str(id)), Some(Str(message)), VersionJson(version),
          Some(Str("command-error"))])))
    case StaleCommand(version) =>
      Text(Obj(Fields(["roomVersion", "type"], [Some(IntJson(version)), Some(Str("stale-command"))])))
  }

  function Problem(code: string, id: string, message: string): Message {
    CommandError(code, id, message, None)
  }

  /** The outcome of running the use case. A stale version is reported with the room's current one. */
  function FinalMessage(d: Delivery, id: string): Message {
    match d.failure
    case None => CommandAck(id, d.version)
    case Some(f) => CommandError(f.code, id, f.message, if f.code == STALE_VERSION then d.version else None)
  }

  /** The bytes sent, whether the use case ran, and what the ledger holds afterwards. */
  datatype Handling = Handling(sent: seq<string>, ran: bool, held: Option<Held>)

  function HandleLegacy(d: Delivery, held: Option<Held>): Handling {
    Handling(if d.failure.Some? && d.failure.value.code == STALE_VERSION
             then [Encode(StaleCommand(if d.version.Some? then d.version.value else 0))] else [],
             true, held)
  }

  /** A failed claim runs nothing; an outcome that cannot be stored is sent all the same and leaves the marker. */
  function HandleCommand(cfg: Config, d: Delivery, id: string, held: Option<Held>): Handling {
    if d.claimFails then Handling([Encode(Problem("internal", id, "internal error"))], false, held)
    else
    match ClaimOf(held, d.claimedAt)
    case Busy =>
      Handling([Encode(Problem("command_in_progress", id, "command is already being processed"))], false, held)
    case Found(frame) => Handling([frame], false, held)
    case Started =>
      var frame := Encode(FinalMessage(d, id));
      Handling([frame], true,
               Some(if d.storeFails then Held(PENDING, d.claimedAt + cfg.pendingTTL)
                    else Held(frame, d.finishedAt + cfg.resultTTL)))
  }

  /** `configured` says whether there is a ledger at all. */
  function Handle(configured: bool, cfg: Config, d: Delivery, held: Option<Held>): Handling {
    if !d.known then
      Handling(if d.commandId == "" then []
          else [Encode(Problem("unknown_command", d.commandId, "unknown command type"))], false, held)
    else if d.commandId == "" then HandleLegacy(d, held)
    else if d.canonical.None? then
      Handling([Encode(Problem("invalid_command_id", d.commandId, "commandId must be a UUID"))], false, held)
    else if !configured then
      Handling([Encode(Problem("internal", d.canonical.value, "internal error"))], false, held)
    else HandleCommand(cfg, d, d.canonical.value, held)
  }

  class Bus {
    const room: string
    const client: string
    const configured: bool
    const ledger: InMemoryLedger
    var closed: bool
    /** What reached the connection, and how often a use case ran. */
    var written: seq<string>
    var runs: nat

    constructor (room: string, client: string, configured: bool, ledger: InMemoryLedger)
      ensures this.room == room && this.client == client && this.configured == configured && this.ledger == ledger
      ensures !closed && written == [] && runs == 0
    {
      this.room, this.client, this.configured, this.ledger := room, client, configured, ledger;
      closed, written, runs := false, [], 0;
    }

    function Key(d: Delivery): string {
      EntryKey(room, client, if d.canonical.Some? then d.canonical.value else "")
    }

    /** Nothing is written to a closed connection. */
    method Send(frame: string)
      modifies this`written
      ensures written == old(written) + if closed then [] else [frame]
    {
      if !closed {
        written := written + [frame];
      }
    }

    method RunUseCase(d: Delivery) returns (failure: Option<Failure>)
      modifies this`runs
      ensures runs == old(runs) + 1 && failure == d.failure
    {
      runs := runs + 1;
      failure := d.failure;
    }

    method FinishCommand(d: Delivery, id: string, m: Message)
      requires ledger.Valid()
      modifies this`written, ledger
      ensures ledger.Valid()
      ensures written == old(written) + if closed then [] else [Encode(m)]
      ensures ledger.Value(EntryKey(room, client, id))
           == if d.storeFails then old(ledger.Value(EntryKey(room, client, id)))
              else Some(Held(Encode(m), d.finishedAt + ledger.cfg.resultTTL))
      ensures forall other :: other != EntryKey(room, client, id) ==> ledger.Value(other) == old(ledger.Value(other))
    {
      hide Encode, EntryKey;
      var payload := Encode(m);
      if !d.storeFails {
        ledger.CompleteCommand(room, client, id, payload, d.finishedAt);
      }
      Send(payload);
    }

    method ProcessCommand(d: Delivery, id: string)
      requires ledger.Valid() && d.canonical == Some(id)
      modifies this`written, this`runs, ledger
      ensures ledger.Valid()
      ensures var h := HandleCommand(ledger.cfg, d, id, old(ledger.Value(Key(d))));
              && written == old(written) + (if closed then [] else h.sent)
              && runs == old(runs) + (if h.ran then 1 else 0)
              && ledger.Value(Key(d)) == h.held
      ensures forall other :: other != Key(d) ==> ledger.Value(other) == old(ledger.Value(other))
    {
      hide Encode, EntryKey;
      if d.claimFails {
        Send(Encode(Problem("internal", id, "internal error")));
        return;
      }
      var c := ledger.ClaimCommand(room, client, id, d.claimedAt);
      match c {
        case Busy => Send(Encode(Problem("command_in_progress", id, "command is already being processed")));
        case Found(frame) => Send(frame);
        case Started =>
          var failure := RunUseCase(d);
          if failure.Some? {
            var version := if failure.value.code == STALE_VERSION then d.version else None;
            FinishCommand(d, id, CommandError(failure.value.code, id, failure.value.message, version));
          } else {
            FinishCommand(d, id, CommandAck(id, d.version));
          }
      }
    }

    method Process(d: Delivery)
      requires ledger.Valid()
      modifies this`written, this`runs, ledger
      ensures ledger.Valid()
      ensures var h := Handle(configured, ledger.cfg, d, old(ledger.Value(Key(d))));
              && written == old(written) + (if closed then [] else h.sent)
              && runs == old(runs) + (if h.ran then 1 else 0)
              && ledger.Value(Key(d)) == h.held
      ensures forall other :: other != Key(d) ==> ledger.Value(other) == old(ledger.Value(other))
    {
      hide Encode, EntryKey;
      if !d.known {
        if d.commandId != "" {
          Send(Encode(Problem("unknown_command", d.commandId, "unknown command type")));
        }
      } else if d.commandId == "" {
        var failure := RunUseCase(d);
        if failure.Some? && failure.value.code == STALE_VERSION {
          Send(Encode(StaleCommand(if d.version.Some? then d.version.value else 0)));
        }
      } else if d.canonical.None? {
        Send(Encode(Problem("invalid_command_id", d.commandId, "commandId must be a UUID")));
      } else if !configured {
        Send(Encode(Problem("internal", d.canonical.value, "internal error")));
      } else {
        ProcessCommand(d, d.canonical.value);
      }
    }
  }

  // ---- what the other side reads ------------------------------------------------------

  /** Under the key `roomVersion` there is this number, or nothing. */
  ghost predicate HasVersion(fields: seq<Field>, version: Option<nat>) {
    match version
    case None => Lookup(fields, "roomVersion") == None
    case Some(n) =>
      match Lookup(fields, "roomVersion")
      case Some(Num(literal)) => Atoi(literal) == Some(n)
      case _ => false
  }

  /** The frame is a JSON object with these fields. */
  ghost predicate IsAck(frame: string, id: string, version: Option<nat>) {
    match Parse(frame)
    case Some(Obj(fields)) =>
      && Lookup(fields, "type") == Some(Str("command-ack"))
      && Lookup(fields, "commandId") == Some(Str(id))
      && Lookup(fields, "code") == None
      && HasVersion(fields, version)
    case _ => false
  }

  ghost predicate IsError(frame: string, code: string, id: string, message: string, version: Option<nat>) {
    match Parse(frame)
    case Some(Obj(fields)) =>
      && Lookup(fields, "type") == Some(Str("command-error"))
      && Lookup(fields, "code") == Some(Str(code))
      && Lookup(fields, "commandId") == Some(Str(id))
      && Lookup(fields, "message") == Some(Str(message))
      && HasVersion(fields, version)
    case _ => false
  }

  ghost predicate IsStale(frame: string, version: nat) {
    match Parse(frame)
    case Some(Obj(fields)) => Lookup(fields, "type") == Some(Str("stale-command")) && HasVersion(fields, Some(version))
    case _ => false
  }

  lemma FrameReads(keys: seq<string>, values: seq<Option<Json>>)
    requires |keys| == |values| && AllOk(values) && Distinct(keys)
    ensures Parse(Text(Obj(Fields(keys, values)))) == Some(Obj(Fields(keys, values)))
    ensures forall i :: 0 <= i < |keys| ==> Lookup(Fields(keys, values), keys[i]) == values[i]
    ensures forall key :: key !in keys ==> Lookup(Fields(keys, values), key) == None
  {
    hide Fields, Lookup, Parse, Text, Distinct, AllOk;
    FieldsAreWellFormed(keys, values);
    ParseUndoesText(Obj(Fields(keys, values)));
    forall i | 0 <= i < |keys| ensures Lookup(Fields(keys, values), keys[i]) == values[i] {
      LookupField(keys, values, i);
    }
    forall key | key !in keys ensures Lookup(Fields(keys, values), key) == None {
      LookupAbsent(keys, values, key);
    }
  }

  lemma VersionOk(version: Option<nat>)
    ensures VersionJson(version).Some? ==>
              WellFormed(VersionJson(version).value)
              && VersionJson(version).value.Num? && Atoi(VersionJson(version).value.literal) == version
    ensures VersionJson(version).Some? <==> version.Some?
  {
    if version.Some? { IntReads(version.value); }
  }

  lemma MessageKeysDiffer()
    ensures Distinct(ACK_KEYS) && Distinct(ERROR_KEYS) && Distinct(["roomVersion", "type"])
    ensures "code" !in ACK_KEYS
  {
    DistinctBySignature(ACK_KEYS);
    DistinctBySignature(ERROR_KEYS);
    DistinctBySignature(["roomVersion", "type"]);
  }

  lemma AckReads(id: string, version: Option<nat>)
    ensures IsAck(Encode(CommandAck(id, version)), id, version)
  {
    hide Fields, Lookup, Parse, Text, Distinct, VersionJson, WellFormed, Atoi;
    var values := [Some(Str(id)), VersionJson(version), Some(Str("command-ack"))];
    MessageKeysDiffer();
    VersionOk(version);
    StringsAreWellFormed();
    FrameReads(ACK_KEYS, values);
    assert Lookup(Fields(ACK_KEYS, values), ACK_KEYS[0]) == values[0];
    assert Lookup(Fields(ACK_KEYS, values), ACK_KEYS[1]) == values[1];
    assert Lookup(Fields(ACK_KEYS, values), ACK_KEYS[2]) == values[2];
  }

  lemma StringsAreWellFormed()
    ensures forall s: string :: WellFormed(Str(s))
  {
  }

  lemma ErrorReads(code: string, id: string, message: string, version: Option<nat>)
    ensures IsError(Encode(CommandError(code, id, message, version)), code, id, message, version)
  {
    hide Fields, Lookup, Parse, Text, Distinct, VersionJson, WellFormed, Atoi;
    var values := [Some(Str(code)), Some(Str(id)), Some(Str(message)), VersionJson(version),
        Some(Str("command-error"))];
    MessageKeysDiffer();
    VersionOk(version);
    StringsAreWellFormed();
    FrameReads(ERROR_KEYS, values);
    assert Lookup(Fields(ERROR_KEYS, values), ERROR_KEYS[0]) == values[0];
    assert Lookup(Fields(ERROR_KEYS, values), ERROR_KEYS[1]) == values[1];
    assert Lookup(Fields(ERROR_KEYS, values), ERROR_KEYS[2]) == values[2];
    assert Lookup(Fields(ERROR_KEYS, values), ERROR_KEYS[3]) == values[3];
    assert Lookup(Fields(ERROR_KEYS, values), ERROR_KEYS[4]) == values[4];
  }

  lemma StaleReads(version: nat)
    ensures IsStale(Encode(StaleCommand(version)), version)
  {
    hide Fields, Lookup, Parse, Text, Distinct, WellFormed, Atoi, IntText;
    var keys := ["roomVersion", "type"];
    var values := [Some(IntJson(version)), Some(Str("stale-command"))];
    MessageKeysDiffer();
    VersionOk(Some(version));
    StringsAreWellFormed();
    FrameReads(keys, values);
    assert Lookup(Fields(keys, values), keys[0]) == values[0];
    assert Lookup(Fields(keys, values), keys[1]) == values[1];
  }

  /** A command with a valid ID, and a ledger to claim it in. */
  predicate IsCommand(configured: bool, d: Delivery) {
    configured && d.known && d.commandId != "" && d.canonical.Some?
  }

  predicate IsHeld(held: Option<Held>, now: CommandLedger.Time) {
    held.Some? && now < held.value.expires
  }

  /** The version an error reports: the room's current one, if the caller's was stale. */
  function ReportedVersion(d: Delivery, f: Failure): Option<nat> {
    if f.code == "stale_version" then d.version else None
  }

  /**
   Main result: what the client reads after its command, what has run and what the ledger holds. A failed use case is
   never acknowledged, and the frame sent is the one that is stored.
   */
  lemma CommandAnswers(configured: bool, cfg: Config, d: Delivery, held: Option<Held>)
    requires IsCommand(configured, d)
    ensures var h, id := Handle(configured, cfg, d, held), d.canonical.value;
            && |h.sent| == 1
            && (h.ran <==> !d.claimFails && !IsHeld(held, d.claimedAt))
            && (!h.ran ==> h.held == held)
            && (d.claimFails ==> IsError(h.sent[0], "internal", id, "internal error", None))
            && (!d.claimFails && IsHeld(held, d.claimedAt) && held.value.value == "pending" ==>
                  IsError(h.sent[0], "command_in_progress", id, "command is already being processed", None))
            && (!d.claimFails && IsHeld(held, d.claimedAt) && held.value.value != "pending" ==>
                  h.sent[0] == held.value.value)
            && (h.ran && d.failure.None? ==> IsAck(h.sent[0], id, d.version))
            && (h.ran && d.failure.Some? ==>
                  IsError(h.sent[0], d.failure.value.code, id, d.failure.value.message,
                          ReportedVersion(d, d.failure.value)))
            && (h.ran ==>
                  h.held == Some(if d.storeFails then Held("pending", d.claimedAt + cfg.pendingTTL)
                                 else Held(h.sent[0], d.finishedAt + cfg.resultTTL)))
  {
    hide Encode, IsAck, IsError;
    var id := d.canonical.value;
    ErrorReads("internal", id, "internal error", None);
    ErrorReads("command_in_progress", id, "command is already being processed", None);
    if d.failure.None? {
      AckReads(id, d.version);
    } else {
      ErrorReads(d.failure.value.code, id, d.failure.value.message, ReportedVersion(d, d.failure.value));
    }
  }

  /** The other messages: nothing is claimed or stored, and only a known type without an ID runs its use case. */
  lemma OtherAnswers(configured: bool, cfg: Config, d: Delivery, held: Option<Held>)
    requires !IsCommand(configured, d)
    ensures var h := Handle(configured, cfg, d, held);
            && h.held == held && (h.ran <==> d.known && d.commandId == "")
            && (!d.known && d.commandId == "" ==> h.sent == [])
            && (!d.known && d.commandId != "" ==>
                  |h.sent| == 1 && IsError(h.sent[0], "unknown_command", d.commandId, "unknown command type", None))
            && (d.known && d.commandId != "" && d.canonical.None? ==>
                  |h.sent| == 1
                  && IsError(h.sent[0], "invalid_command_id", d.commandId, "commandId must be a UUID", None))
            && (d.known && d.commandId != "" && d.canonical.Some? ==>
                  |h.sent| == 1 && IsError(h.sent[0], "internal", d.canonical.value, "internal error", None))
            && (h.ran && d.failure.Some? && d.failure.value.code == "stale_version" ==>
                  |h.sent| == 1 && IsStale(h.sent[0], if d.version.Some? then d.version.value else 0))
            && (h.ran && !(d.failure.Some? && d.failure.value.code == "stale_version") ==> h.sent == [])
  {
    hide Encode, IsError, IsStale;
    ErrorReads("unknown_command", d.commandId, "unknown command type", None);
    ErrorReads("invalid_command_id", d.commandId, "commandId must be a UUID", None);
    if d.canonical.Some? {
      ErrorReads("internal", d.canonical.value, "internal error", None);
    }
    StaleReads(if d.version.Some? then d.version.value else 0);
  }

  /**
   Main result, the exact condition: after a delivery that ran the use case, another one runs it again if and only if
   its claim works and what the first one left, the outcome or else the marker, has expired.
   */
  lemma SecondDeliveryRunsIffExpired(cfg: Config, d: Delivery, retry: Delivery, id: string, held: Option<Held>)
    requires HandleCommand(cfg, d, id, held).ran
    ensures HandleCommand(cfg, retry, id, HandleCommand(cfg, d, id, held).held).ran
       <==> !retry.claimFails
            && (if d.storeFails then d.claimedAt + cfg.pendingTTL else d.finishedAt + cfg.resultTTL) <= retry.claimedAt
  {
    hide Encode;
    var frame := Encode(FinalMessage(d, id));
    assert IsFrame(frame) && frame != PENDING;
  }

  /**
   Main result: a command delivered again while its outcome is held, on the same bus or on the one of a new
   connection, does not run the use case again, and the bytes sent are those of the first answer. That holds
   even when the first connection was closed and its answer never left.
   */
  method DeliverTwice(bus: Bus, again: Bus, d: Delivery, retry: Delivery)
    requires bus.ledger == again.ledger && bus.room == again.room && bus.client == again.client
    requires bus.ledger.Valid() && !again.closed && bus.configured && again.configured
    requires !d.claimFails && !d.storeFails && !retry.claimFails
    requires d.known && retry.known && d.commandId != "" && retry.commandId != ""
    requires d.canonical.Some? && retry.canonical == d.canonical
    requires Absent(bus.ledger.Value(bus.Key(d)), d.claimedAt)
    requires d.finishedAt <= retry.claimedAt < d.finishedAt + bus.ledger.cfg.resultTTL
    modifies bus`written, bus`runs, again`written, again`runs, bus.ledger
    ensures bus != again ==> bus.runs == old(bus.runs) + 1 && again.runs == old(again.runs)
    ensures bus == again ==> bus.runs == old(bus.runs) + 1
    ensures var frame := Encode(FinalMessage(d, d.canonical.value));
            again.written == old(again.written) + (if bus == again then [frame, frame] else [frame])
  {
    hide Encode, EntryKey;
    bus.Process(d);
    assert bus.ledger.Value(bus.Key(d)) == Some(Held(Encode(FinalMessage(d, d.canonical.value)),
        d.finishedAt + bus.ledger.cfg.resultTTL));
    again.Process(retry);
  }
}
