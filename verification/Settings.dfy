/**
 Saving the settings (web/app.py, storage/db.py): one request touches the database row, the recovery
 pointer file and a credential vault whose writes run late, in order, on a single worker. Everything
 the request cannot control is part of its `Environment`.
 */
module Settings {
  import opened Wrappers
  import ImmediateWrites
  import opened Origins
  import Text

  type Slot = string

  // ----- the vault

  datatype VaultOp = SetSecret(slot: Slot, secret: string) | DeleteSecret(slot: Slot)

  /** How a queued operation ends: the store may fail before or after it has done its work. */
  datatype OpResult = Done | FailedBefore | FailedAfter

  datatype Vault = Vault(store: map<Slot, string>, queue: seq<VaultOp>)

  function Performed(store: map<Slot, string>, op: VaultOp): map<Slot, string> {
    match op
    case SetSecret(slot, secret) => store[slot := secret]
    case DeleteSecret(slot) => store - {slot}
  }

  /** The worker takes operations off the queue in order. */
  function Drained(v: Vault, results: seq<OpResult>): Vault
    decreases |results|
  {
    if results == [] || v.queue == [] then v
    else
      var store := if results[0] == FailedBefore then v.store else Performed(v.store, v.queue[0]);
      Drained(Vault(store, v.queue[1..]), results[1..])
  }

  function Queued(v: Vault, ops: seq<VaultOp>): Vault { v.(queue := v.queue + ops) }

  // ----- the pointer file

  /** What reading the pointer gives; an empty file is a tombstone. */
  function ReadPointer(content: Option<string>): Option<string> {
    if content.None? || Text.Strip(content.value) == "" then None else Some(Text.Strip(content.value))
  }

  function PointerFor(directory: Option<string>): Option<string> {
    if directory == None || directory == Some("") then Some("") else Some(directory.value + "\n")
  }

  // ----- the row and a request

  datatype Row = Row(
    setup: bool, directory: Option<string>, provider: Option<string>, baseUrl: Option<string>, model: Option<string>,
    credential: Option<Slot>, origin: Option<string>)

  const NO_ROW := Row(false, None, None, None, None, None, None)

  /** A field of the request: absent, or present with a value that may be null. */
  datatype Field = Absent | Present(value: Option<string>)

  datatype Payload = Payload(
    setup: Option<bool>, directory: Field, provider: Field, baseUrl: Field, model: Field, key: Field)

  datatype CommitOutcome = Durable | DurableThenCancelled | RolledBack | CancelledUncommitted

  /** What happens around one request. */
  datatype Environment = Environment(
    vaultPresent: bool, freshSlot: Slot, secretReadable: bool,
    drained: seq<OpResult>, timedOut: bool, cancelledWhileWaiting: bool,
    pointerReadable: bool, pointerWritable: bool, commit: CommitOutcome, pointerRestorable: bool)

  datatype Status = Ok | BadRequest | Unavailable | RequestCancelled

  function Merged(field: Field, current: Option<string>): Option<string> {
    if field.Present? then field.value else current
  }

  predicate Given(value: Option<string>) { value.Some? && value.value != "" }

  predicate KeyGiven(p: Payload) { p.key.Present? && Given(p.key.value) }

  /** An explicit empty key deletes the stored one. */
  predicate KeyDeleted(p: Payload) { p.key.Present? && !KeyGiven(p) }

  /** The binding before a deletion: a new key binds to a fresh slot, a provider or origin change unbinds. */
  function Binding(p: Payload, current: Row, slot: Slot): (Option<Slot>, Option<string>) {
    var baseUrl := Merged(p.baseUrl, current.baseUrl);
    if KeyGiven(p) then (Some(slot), baseUrl)
    else if (p.provider.Present? && Merged(p.provider, current.provider) != current.provider)
      || (p.baseUrl.Present? && NormalizedOrigin(baseUrl) != NormalizedOrigin(current.origin)) then (None, None)
    else (current.credential, current.origin)
  }

  /** The row the request asks for. */
  function Wanted(p: Payload, current: Row, slot: Slot): Row {
    var binding := if KeyDeleted(p) then (None, None) else Binding(p, current, slot);
    Row(
      if p.setup.Some? then p.setup.value else current.setup,
      Merged(p.directory, current.directory), Merged(p.provider, current.provider),
      Merged(p.baseUrl, current.baseUrl), Merged(p.model, current.model), binding.0, binding.1)
  }

  /** The gate of a completed setup; a stored key counts only if it can be read now. */
  predicate Runnable(p: Payload, current: Row, store: map<Slot, string>, env: Environment) {
    var credential := Binding(p, current, env.freshSlot).0;
    && Given(Merged(p.provider, current.provider)) && Given(Merged(p.baseUrl, current.baseUrl))
    && Given(Merged(p.model, current.model)) && Given(credential)
    && (KeyGiven(p) || (!KeyDeleted(p) && env.vaultPresent && env.secretReadable
          && credential.value in store && store[credential.value] != ""))
  }

  // ----- the state

  /** What was supplied for a slot: the key, and the base URL it was meant for. */
  datatype Supply = Supply(secret: string, origin: Option<string>)

  /** `used`, `supplied` and `split` only record what happened: slots handed out, keys, failed compensations. */
  datatype State = State(
    row: Option<Row>, pointer: Option<string>, vault: Vault,
    used: set<Slot>, supplied: map<Slot, Supply>, split: bool)

  function Current(s: State): Row { if s.row.Some? then s.row.value else NO_ROW }

  // ----- the commit

  /** What the request learns of its transaction: what left it, and whether the flag was set. */
  function OutcomeOf(raised: ImmediateWrites.Raised, committed: bool): CommitOutcome {
    if committed then (if raised == ImmediateWrites.Cancelled then DurableThenCancelled else Durable)
    else if raised == ImmediateWrites.Cancelled then CancelledUncommitted
    else RolledBack
  }

  predicate IsDurable(outcome: CommitOutcome) { outcome in {Durable, DurableThenCancelled} }

  // ----- one save

  /** After the fresh slot's write was queued and the worker ran for a while. */
  function AfterWait(v: Vault, p: Payload, env: Environment): Vault
    requires KeyGiven(p)
  {
    Drained(Queued(v, [SetSecret(env.freshSlot, p.key.value.value)]), env.drained)
  }

  /** The write is confirmed when it was performed in time. */
  predicate Confirmed(v: Vault, env: Environment) {
    !env.timedOut && |env.drained| > |v.queue| && env.drained[|v.queue|] == Done
  }

  function Supplying(s: State, p: Payload, env: Environment): State
    requires KeyGiven(p)
  {
    s.(
      vault := AfterWait(s.vault, p, env), used := s.used + {env.freshSlot},
      supplied := s.supplied[env.freshSlot := Supply(p.key.value.value, Merged(p.baseUrl, Current(s).baseUrl))])
  }

  function Deletes(slots: seq<Slot>): seq<VaultOp> {
    seq(|slots|, i requires 0 <= i < |slots| => DeleteSecret(slots[i]))
  }

  /** The state after a save, and its answer. */
  function Saved(s: State, p: Payload, env: Environment): (State, Status) {
    var current := Current(s);
    var wanted := Wanted(p, current, env.freshSlot);
    if wanted.setup && !Runnable(p, current, s.vault.store, env) then (s, BadRequest)
    else if p.key.Present? && !env.vaultPresent then (s, Unavailable)
    else if !KeyGiven(p) then Stored(s, p, env, wanted, [])
    else
      var waited := Supplying(s, p, env);
      if env.cancelledWhileWaiting then (waited, RequestCancelled)
      else if !Confirmed(s.vault, env) then
        (waited.(vault := Queued(waited.vault, Deletes([env.freshSlot]))), Unavailable)
      else Stored(waited, p, env, wanted, [env.freshSlot])
  }

  /** The slots a new row leaves behind. */
  function Replaced(p: Payload, current: Row): seq<Slot> {
    if p.key.Present? && Given(current.credential) then [current.credential.value] else []
  }

  /** Pointer first, then the database; whatever fails is compensated. `unadopted` is the fresh slot, if any. */
  function Stored(s: State, p: Payload, env: Environment, wanted: Row, unadopted: seq<Slot>): (State, Status) {
    var abandoned := s.(vault := Queued(s.vault, Deletes(unadopted)));
    if p.directory.Present? && !(env.pointerReadable && env.pointerWritable) then (abandoned, Unavailable)
    else
      var written := if p.directory.Present? then PointerFor(wanted.directory) else s.pointer;
      match env.commit
      case Durable => (Adopted(s, p, wanted, written), Ok)
      case DurableThenCancelled => (Adopted(s, p, wanted, written), RequestCancelled)
      case RolledBack => (Compensated(s, p, env, written, unadopted), Unavailable)
      case CancelledUncommitted => (Compensated(s, p, env, written, unadopted), RequestCancelled)
  }

  function Adopted(s: State, p: Payload, wanted: Row, written: Option<string>): State {
    s.(
      row := Some(wanted), pointer := written, split := s.split && !p.directory.Present?,
      vault := Queued(s.vault, Deletes(Replaced(p, Current(s)))))
  }

  function Compensated(s: State, p: Payload, env: Environment, written: Option<string>, unadopted: seq<Slot>): State {
    var restored := p.directory.Present? && env.pointerRestorable;
    s.(
      pointer := if restored then PointerFor(ReadPointer(s.pointer)) else written,
      split := s.split || (p.directory.Present? && !env.pointerRestorable),
      vault := Queued(s.vault, Deletes(unadopted)))
  }

  // ----- the service

  class SettingsService {
    /** The database session; its durable content is the settings row. */
    const session: ImmediateWrites.Session<Option<Row>>
    var pointer: Option<string>
    var store: map<Slot, string>
    var queue: seq<VaultOp>
    ghost var used: set<Slot>
    ghost var supplied: map<Slot, Supply>
    ghost var split: bool

    ghost function Contents(): State
      reads this, session
    {
      State(session.stored, pointer, Vault(store, queue), used, supplied, split)
    }

    constructor ()
      ensures Contents() == State(None, None, Vault(map[], []), {}, map[], false) && fresh(session)
    {
      session := new ImmediateWrites.Session(None);
      pointer, store, queue := None, map[], [];
      used, supplied, split := {}, map[], false;
    }

    /** The credential worker performs queued operations, one after the other. */
    method Drain(results: seq<OpResult>)
      modifies this`store, this`queue
      ensures Vault(store, queue) == Drained(old(Vault(store, queue)), results)
    {
      for k := 0 to |results|
        invariant Drained(Vault(store, queue), results[k..]) == Drained(old(Vault(store, queue)), results)
      {
        if queue == [] {
          DrainedEmpty(Vault(store, queue), results[k..]);
          return;
        }
        assert results[k..][0] == results[k] && results[k..][1..] == results[k + 1..];
        if results[k] != FailedBefore {
          store := Performed(store, queue[0]);
        }
        queue := queue[1..];
      }
    }

    method SubmitDelete(slot: Slot)
      modifies this`queue
      ensures queue == old(queue) + [DeleteSecret(slot)]
    {
      queue := queue + [DeleteSecret(slot)];
    }

    method SubmitDeletes(slots: seq<Slot>)
      modifies this`queue
      ensures queue == old(queue) + Deletes(slots)
    {
      for k := 0 to |slots|
        invariant queue == old(queue) + Deletes(slots[..k])
      {
        assert Deletes(slots[..k + 1]) == Deletes(slots[..k]) + [DeleteSecret(slots[k])];
        SubmitDelete(slots[k]);
      }
      assert slots[..|slots|] == slots;
    }

    /** The write of a fresh slot and the wait for it. */
    method SetSecretAndWait(secret: string, env: Environment, ghost origin: Option<string>) returns (confirmed: bool)
      modifies this`store, this`queue, this`used, this`supplied
      ensures Vault(store, queue) ==
        Drained(Queued(old(Vault(store, queue)), [SetSecret(env.freshSlot, secret)]), env.drained)
      ensures used == old(used) + {env.freshSlot}
      ensures supplied == old(supplied)[env.freshSlot := Supply(secret, origin)]
      ensures confirmed == Confirmed(old(Vault(store, queue)), env)
    {
      used, supplied := used + {env.freshSlot}, supplied[env.freshSlot := Supply(secret, origin)];
      var place := |queue|;
      queue := queue + [SetSecret(env.freshSlot, secret)];
      Drain(env.drained);
      return !env.timedOut && |env.drained| > place && env.drained[place] == Done;
    }

    /**
     One save. `body` and `schedule` are what the transaction meets, and `commit` is what it comes to: it is
     durable exactly when the statements return and the commit task succeeds.
     */
    method Put(p: Payload, env: Environment, body: ImmediateWrites.Body, schedule: ImmediateWrites.Schedule)
      returns (status: Status, ghost commit: CommitOutcome)
      requires ImmediateWrites.Fair(schedule)
      modifies this, session
      ensures IsDurable(commit) <==> body == ImmediateWrites.Returns && ImmediateWrites.Commits(schedule)
      ensures (Contents(), status) == Saved(old(Contents()), p, env.(commit := commit))
    {
      var current := if session.stored.Some? then session.stored.value else NO_ROW;
      var wanted := Wanted(p, current, env.freshSlot);
      commit := if body == ImmediateWrites.Returns && ImmediateWrites.Commits(schedule) then Durable else RolledBack;
      if wanted.setup && !Runnable(p, current, store, env) {
        return BadRequest, commit;
      }
      var unadopted: seq<Slot> := [];
      if p.key.Present? {
        if !env.vaultPresent {
          return Unavailable, commit;
        }
        if KeyGiven(p) {
          var confirmed := SetSecretAndWait(p.key.value.value, env, wanted.baseUrl);
          if env.cancelledWhileWaiting {
            return RequestCancelled, commit;
          }
          unadopted := [env.freshSlot];
          if !confirmed {
            SubmitDeletes(unadopted);
            return Unavailable, commit;
          }
        }
      }
      status, commit := StoreRow(p, env, body, schedule, current, wanted, unadopted);
    }

    /**
     Pointer, transaction and compensation. The row changes where the commit task ends; what is undone
     afterwards is decided by the exception that arrives and the flag.
     */
    method StoreRow(
        p: Payload, env: Environment, body: ImmediateWrites.Body, schedule: ImmediateWrites.Schedule,
        current: Row, wanted: Row, unadopted: seq<Slot>)
      returns (status: Status, ghost commit: CommitOutcome)
      requires ImmediateWrites.Fair(schedule) && current == Current(Contents())
      modifies this, session
      ensures IsDurable(commit) <==> body == ImmediateWrites.Returns && ImmediateWrites.Commits(schedule)
      ensures (Contents(), status) == Stored(old(Contents()), p, env.(commit := commit), wanted, unadopted)
    {
      commit := if body == ImmediateWrites.Returns && ImmediateWrites.Commits(schedule) then Durable else RolledBack;
      var previous := ReadPointer(pointer);
      if p.directory.Present? {
        if !env.pointerReadable || !env.pointerWritable {
          SubmitDeletes(unadopted);
          return Unavailable, commit;
        }
        pointer := PointerFor(wanted.directory);
      }
      var raised, committed, _ := session.ImmediateWrite(schedule, body, Some(wanted));
      commit := OutcomeOf(raised, committed);
      if raised == ImmediateWrites.Cancelled {
        if committed {
          split := split && !p.directory.Present?;
          SubmitDeletes(Replaced(p, current));
        } else {
          RestorePointer(p, env, previous);
          SubmitDeletes(unadopted);
        }
        return RequestCancelled, commit;
      }
      if raised == ImmediateWrites.Failed {
        RestorePointer(p, env, previous);
        SubmitDeletes(unadopted);
        return Unavailable, commit;
      }
      split := split && !p.directory.Present?;
      SubmitDeletes(Replaced(p, current));
      return Ok, commit;
    }

    /** The compensating write, which may itself fail. */
    method RestorePointer(p: Payload, env: Environment, previous: Option<string>)
      modifies this`pointer, this`split
      ensures pointer == if p.directory.Present? && env.pointerRestorable then PointerFor(previous) else old(pointer)
      ensures split == (old(split) || (p.directory.Present? && !env.pointerRestorable))
    {
      if p.directory.Present? {
        if env.pointerRestorable {
          pointer := PointerFor(previous);
        } else {
          split := true;
        }
      }
    }
  }

  lemma DrainedEmpty(v: Vault, results: seq<OpResult>)
    requires v.queue == []
    ensures Drained(v, results) == v
  {
  }
}
