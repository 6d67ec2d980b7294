/** What holds after any run of saves, whatever fails, times out or is cancelled. */
module SettingsLaws {
  import opened Wrappers
  import opened Origins
  import opened Settings
  import Text
  import Urls

  // ----- the invariant

  predicate Targets(op: VaultOp, slot: Slot) { op.slot == slot }

  predicate Untouched(queue: seq<VaultOp>, slot: Slot) { forall op <- queue :: !Targets(op, slot) }

  /** The slot holds the key supplied for the recorded origin, and nothing in the queue will change it. */
  predicate Bound(s: State, row: Row) {
    row.credential.Some? ==>
      var slot := row.credential.value;
      && slot in s.supplied && slot in s.used && s.supplied[slot].secret != ""
      && slot in s.vault.store && s.vault.store[slot] == s.supplied[slot].secret
      && row.origin == s.supplied[slot].origin
      && Untouched(s.vault.queue, slot)
      && NormalizedOrigin(row.origin) == NormalizedOrigin(row.baseUrl)
  }

  /** A completed setup can run. */
  predicate Complete(row: Row) {
    row.setup ==> Given(row.provider) && Given(row.baseUrl) && Given(row.model) && Given(row.credential)
  }

  /** What the pointer has to read as, for a directory; surrounding whitespace does not survive the file. */
  function PointerOf(directory: Option<string>): Option<string> {
    if directory.None? || Text.Strip(directory.value) == "" then None else Some(Text.Strip(directory.value))
  }

  predicate Agrees(s: State) { ReadPointer(s.pointer) == PointerOf(Current(s).directory) }

  predicate Inv(s: State) {
    && (forall op <- s.vault.queue :: op.slot in s.used)
    && Bound(s, Current(s)) && Complete(Current(s))
    && (Agrees(s) || s.split)
  }

  const START := State(None, None, Vault(map[], []), {}, map[], false)

  // ----- the vault

  lemma {:induction false} DrainKeeps(v: Vault, results: seq<OpResult>, slot: Slot)
    requires Untouched(v.queue, slot)
    ensures Untouched(Drained(v, results).queue, slot)
    ensures slot in Drained(v, results).store <==> slot in v.store
    ensures slot in v.store ==> Drained(v, results).store[slot] == v.store[slot]
    ensures forall op <- Drained(v, results).queue :: op in v.queue
    decreases |results|
  {
    if results != [] && v.queue != [] {
      assert !Targets(v.queue[0], slot);
      var store := if results[0] == FailedBefore then v.store else Performed(v.store, v.queue[0]);
      DrainKeeps(Vault(store, v.queue[1..]), results[1..], slot);
    }
  }

  lemma {:induction false} DrainShrinks(v: Vault, results: seq<OpResult>)
    ensures forall op <- Drained(v, results).queue :: op in v.queue
    decreases |results|
  {
    if results != [] && v.queue != [] {
      var store := if results[0] == FailedBefore then v.store else Performed(v.store, v.queue[0]);
      DrainShrinks(Vault(store, v.queue[1..]), results[1..]);
    }
  }

  /** A confirmed write is in its slot, and nothing else is queued for it. */
  lemma {:induction false} ConfirmedIsStored(v: Vault, slot: Slot, secret: string, results: seq<OpResult>)
    requires Untouched(v.queue, slot) && |results| > |v.queue| && results[|v.queue|] == Done
    ensures var after := Drained(Queued(v, [SetSecret(slot, secret)]), results);
      slot in after.store && after.store[slot] == secret && Untouched(after.queue, slot)
    decreases |results|
  {
    var w := Queued(v, [SetSecret(slot, secret)]);
    if v.queue == [] {
      assert w.queue == [SetSecret(slot, secret)];
      var next := Vault(Performed(w.store, w.queue[0]), w.queue[1..]);
      assert Drained(w, results) == Drained(next, results[1..]);
      DrainKeeps(next, results[1..], slot);
    } else {
      assert !Targets(v.queue[0], slot) && w.queue[0] == v.queue[0];
      var store := if results[0] == FailedBefore then v.store else Performed(v.store, v.queue[0]);
      assert w.queue[1..] == v.queue[1..] + [SetSecret(slot, secret)];
      assert Queued(Vault(store, v.queue[1..]), [SetSecret(slot, secret)]) == Vault(store, w.queue[1..]);
      ConfirmedIsStored(Vault(store, v.queue[1..]), slot, secret, results[1..]);
    }
  }

  // ----- saves

  /** A slot name is never handed out twice. */
  predicate FreshIn(s: State, env: Environment) { env.freshSlot !in s.used && env.freshSlot != "" }

  lemma NewOpsKeepBound(s: State, row: Row, slots: seq<Slot>)
    requires Bound(s, row) && (row.credential.Some? ==> row.credential.value !in slots)
    ensures Bound(s.(vault := Queued(s.vault, Deletes(slots))), row)
  {
    if row.credential.Some? {
      var slot := row.credential.value;
      forall op <- Queued(s.vault, Deletes(slots)).queue ensures !Targets(op, slot) {
        if op !in s.vault.queue {
          assert op in Deletes(slots);
          var i :| 0 <= i < |slots| && Deletes(slots)[i] == op;
        }
      }
    }
  }

  /** Queueing the fresh slot's write and waiting for it leaves the old binding alone. */
  lemma SupplyingKeeps(s: State, p: Payload, env: Environment)
    requires Inv(s) && KeyGiven(p) && FreshIn(s, env)
    ensures Inv(Supplying(s, p, env))
  {
    var slot := env.freshSlot;
    var w := Queued(s.vault, [SetSecret(slot, p.key.value.value)]);
    var t := Supplying(s, p, env);
    var row := Current(s);
    DrainShrinks(w, env.drained);
    forall op <- t.vault.queue ensures op.slot in t.used {
      assert op in w.queue;
    }
    if row.credential.Some? {
      assert row.credential.value != slot;
      forall op <- w.queue ensures !Targets(op, row.credential.value) {
        assert op in s.vault.queue || op == SetSecret(slot, p.key.value.value);
      }
      DrainKeeps(w, env.drained, row.credential.value);
    }
  }

  lemma ConfirmedBinds(s: State, p: Payload, env: Environment)
    requires Inv(s) && KeyGiven(p) && FreshIn(s, env) && Confirmed(s.vault, env)
    ensures Bound(Supplying(s, p, env), Wanted(p, Current(s), env.freshSlot))
  {
    forall op <- s.vault.queue ensures !Targets(op, env.freshSlot) {
      assert op.slot in s.used;
    }
    ConfirmedIsStored(s.vault, env.freshSlot, p.key.value.value, env.drained);
  }

  /** Without a new key the row keeps its slot only while the origin stays the same. */
  lemma KeptBinding(s: State, p: Payload, env: Environment)
    requires Inv(s) && !KeyGiven(p)
    ensures Bound(s, Wanted(p, Current(s), env.freshSlot))
  {
  }

  lemma GateCompletes(s: State, p: Payload, env: Environment)
    requires Wanted(p, Current(s), env.freshSlot).setup ==> Runnable(p, Current(s), s.vault.store, env)
    ensures Complete(Wanted(p, Current(s), env.freshSlot))
  {
  }

  lemma {:induction false} PointerReadsBack(directory: Option<string>)
    ensures ReadPointer(PointerFor(directory)) == PointerOf(directory)
  {
    if Given(directory) {
      StripNewline(directory.value);
    }
    assert Text.Strip("") == "";
  }

  lemma StripNewline(s: string)
    ensures Text.Strip(s + "\n") == Text.Strip(s)
  {
    if Text.TrimLeft(s) == "" {
      TrimmedAll(s);
      Text.TrimLeftPadding(s, "\n");
      assert Text.TrimLeft("\n") == "" by { assert "\n"[1..] == ""; }
    } else {
      TrimLeftAppend(s, "\n");
      Text.TrimRightPadding(Text.TrimLeft(s), "\n");
    }
  }

  lemma {:induction false} TrimmedAll(s: string)
    requires Text.TrimLeft(s) == ""
    ensures Text.Blank(s)
  {
    if s != "" {
      TrimmedAll(s[1..]);
    }
  }

  lemma {:induction false} TrimLeftAppend(s: string, after: string)
    requires Text.TrimLeft(s) != ""
    ensures Text.TrimLeft(s + after) == Text.TrimLeft(s) + after
  {
    assert (s + after)[0] == s[0];
    if Text.IsSpace(s[0]) {
      assert (s + after)[1..] == s[1..] + after;
      TrimLeftAppend(s[1..], after);
    }
  }

  lemma ReadPointerIsStripped(content: Option<string>)
    ensures ReadPointer(PointerFor(ReadPointer(content))) == ReadPointer(content)
  {
    PointerReadsBack(ReadPointer(content));
    if ReadPointer(content).Some? {
      Text.StripIsStripped(content.value);
      Text.StrippedStays(ReadPointer(content).value);
    }
  }

  // ----- the final step

  lemma AdoptionKeepsInv(s: State, p: Payload, wanted: Row, written: Option<string>, env: Environment)
    requires Inv(s) && wanted == Wanted(p, Current(s), env.freshSlot)
    requires Bound(s, wanted) && Complete(wanted)
    requires KeyGiven(p) ==> Current(s).credential != Some(env.freshSlot)
    requires written == if p.directory.Present? then PointerFor(wanted.directory) else s.pointer
    ensures Inv(Adopted(s, p, wanted, written))
  {
    var slots := Replaced(p, Current(s));
    NewOpsKeepBound(s, wanted, slots);
    var t := Adopted(s, p, wanted, written);
    forall op <- t.vault.queue ensures op.slot in t.used {
      if op !in s.vault.queue {
        assert op in Deletes(slots);
      }
    }
    PointerReadsBack(wanted.directory);
  }

  lemma CompensationKeepsInv(s: State, p: Payload, env: Environment, written: Option<string>, unadopted: seq<Slot>)
    requires Inv(s) && forall slot <- unadopted :: slot in s.used && Current(s).credential != Some(slot)
    requires !p.directory.Present? ==> written == s.pointer
    ensures Inv(Compensated(s, p, env, written, unadopted))
  {
    var t := Compensated(s, p, env, written, unadopted);
    NewOpsKeepBound(s, Current(s), unadopted);
    forall op <- t.vault.queue ensures op.slot in t.used {
      if op !in s.vault.queue {
        assert op in Deletes(unadopted);
        var i :| 0 <= i < |unadopted| && Deletes(unadopted)[i] == op;
        assert unadopted[i] in unadopted;
      }
    }
    ReadPointerIsStripped(s.pointer);
  }

  lemma StoringKeepsInv(s: State, p: Payload, env: Environment, wanted: Row, unadopted: seq<Slot>)
    requires Inv(s) && wanted == Wanted(p, Current(s), env.freshSlot)
    requires Bound(s, wanted) && Complete(wanted)
    requires KeyGiven(p) ==> Current(s).credential != Some(env.freshSlot)
    requires forall slot <- unadopted :: slot in s.used && Current(s).credential != Some(slot)
    ensures Inv(Stored(s, p, env, wanted, unadopted).0)
  {
    var written := if p.directory.Present? then PointerFor(wanted.directory) else s.pointer;
    AdoptionKeepsInv(s, p, wanted, written, env);
    CompensationKeepsInv(s, p, env, written, unadopted);
    DeletesKeepInv(s, unadopted);
  }

  lemma DeletesKeepInv(s: State, slots: seq<Slot>)
    requires Inv(s) && forall slot <- slots :: slot in s.used && Current(s).credential != Some(slot)
    ensures Inv(s.(vault := Queued(s.vault, Deletes(slots))))
  {
    NewOpsKeepBound(s, Current(s), slots);
    forall op <- Queued(s.vault, Deletes(slots)).queue ensures op.slot in s.used {
      if op !in s.vault.queue {
        assert op in Deletes(slots);
        var i :| 0 <= i < |slots| && Deletes(slots)[i] == op;
        assert slots[i] in slots;
      }
    }
  }

  lemma SaveKeepsInv(s: State, p: Payload, env: Environment)
    requires Inv(s) && FreshIn(s, env)
    ensures Inv(Saved(s, p, env).0)
  {
    var wanted := Wanted(p, Current(s), env.freshSlot);
    if wanted.setup && !Runnable(p, Current(s), s.vault.store, env) {
    } else if p.key.Present? && !env.vaultPresent {
    } else if !KeyGiven(p) {
      KeptBinding(s, p, env);
      GateCompletes(s, p, env);
      StoringKeepsInv(s, p, env, wanted, []);
    } else {
      var t := Supplying(s, p, env);
      SupplyingKeeps(s, p, env);
      DeletesKeepInv(t, [env.freshSlot]);
      if !env.cancelledWhileWaiting && Confirmed(s.vault, env) {
        ConfirmedBinds(s, p, env);
        GateCompletes(s, p, env);
        StoringKeepsInv(t, p, env, wanted, [env.freshSlot]);
      }
    }
  }

  // ----- runs

  datatype Event = Save(payload: Payload, env: Environment) | Work(results: seq<OpResult>)

  function After(events: seq<Event>): State {
    if events == [] then START
    else
      var s := After(events[..|events| - 1]);
      match events[|events| - 1]
      case Save(p, env) => Saved(s, p, env).0
      case Work(results) => s.(vault := Drained(s.vault, results))
  }

  /** In a run every save is handed a slot name that was never used before. */
  ghost predicate IsRun(events: seq<Event>) {
    events != [] ==>
      && IsRun(events[..|events| - 1])
      && (events[|events| - 1].Save? ==> FreshIn(After(events[..|events| - 1]), events[|events| - 1].env))
  }

  lemma WorkKeepsInv(s: State, results: seq<OpResult>)
    requires Inv(s)
    ensures Inv(s.(vault := Drained(s.vault, results)))
  {
    DrainShrinks(s.vault, results);
    if Current(s).credential.Some? {
      DrainKeeps(s.vault, results, Current(s).credential.value);
    }
  }

  lemma {:induction false} RunsKeepInv(events: seq<Event>)
    requires IsRun(events)
    ensures Inv(After(events))
  {
    if events != [] {
      RunsKeepInv(events[..|events| - 1]);
      match events[|events| - 1]
      case Save(p, env) => SaveKeepsInv(After(events[..|events| - 1]), p, env);
      case Work(results) => WorkKeepsInv(After(events[..|events| - 1]), results);
    }
  }

  /**
   In every run the slot the row refers to holds the key that was supplied for the recorded base URL, no
   queued vault operation targets it, and the recorded origin is that of the row's base URL.
   */
  lemma TheKeyFitsItsOrigin(events: seq<Event>)
    requires IsRun(events)
    ensures var s := After(events);
      s.row.Some? && s.row.value.credential.Some? ==>
        var slot := s.row.value.credential.value;
        && slot in s.supplied && slot in s.vault.store
        && s.vault.store[slot] == s.supplied[slot].secret && s.supplied[slot].secret != ""
        && s.row.value.origin == s.supplied[slot].origin
        && NormalizedOrigin(s.row.value.origin) == NormalizedOrigin(s.row.value.baseUrl)
        && forall op <- s.vault.queue :: op.slot != slot
  {
    RunsKeepInv(events);
    var s := After(events);
    if s.row.Some? && s.row.value.credential.Some? {
      forall op <- s.vault.queue ensures op.slot != s.row.value.credential.value {
        assert !Targets(op, s.row.value.credential.value);
      }
    }
  }

  /** In every run a completed setup has its provider, base URL, model and a stored key. */
  lemma CompletedSetupsRun(events: seq<Event>)
    requires IsRun(events)
    ensures var s := After(events);
      s.row.Some? && s.row.value.setup ==>
        && Given(s.row.value.provider) && Given(s.row.value.baseUrl) && Given(s.row.value.model)
        && s.row.value.credential.Some? && s.row.value.credential.value in s.vault.store
        && s.vault.store[s.row.value.credential.value] != ""
  {
    RunsKeepInv(events);
  }

  /** In every run pointer and row name the same directory, unless a compensating write itself failed. */
  lemma PointerFollowsRow(events: seq<Event>)
    requires IsRun(events)
    ensures Agrees(After(events)) || After(events).split
  {
    RunsKeepInv(events);
  }

  // ----- who changes the row, and who leaves pointer and row apart

  /** The save gets as far as its transaction. */
  predicate Reaches(s: State, p: Payload, env: Environment) {
    && (Wanted(p, Current(s), env.freshSlot).setup ==> Runnable(p, Current(s), s.vault.store, env))
    && (p.key.Present? ==> env.vaultPresent)
    && (KeyGiven(p) ==> !env.cancelledWhileWaiting && Confirmed(s.vault, env))
    && (p.directory.Present? ==> env.pointerReadable && env.pointerWritable)
  }

  predicate Adopts(s: State, p: Payload, env: Environment) { Reaches(s, p, env) && IsDurable(env.commit) }

  /** A save whose compensating write fails. */
  predicate Splits(s: State, p: Payload, env: Environment) {
    Reaches(s, p, env) && !IsDurable(env.commit) && p.directory.Present? && !env.pointerRestorable
  }

  lemma SaveChanges(s: State, p: Payload, env: Environment)
    ensures var (t, status) := Saved(s, p, env);
      && t.row == (if Adopts(s, p, env) then Some(Wanted(p, Current(s), env.freshSlot)) else s.row)
      && (t.split <==> Splits(s, p, env) || (s.split && !(Adopts(s, p, env) && p.directory.Present?)))
      && (status == Ok ==> Adopts(s, p, env)) && (status in {BadRequest, Unavailable} ==> !Adopts(s, p, env))
  {
  }

  /** The row the last adopted save of the run asked for. */
  function LastAdopted(events: seq<Event>): Option<Row> {
    if events == [] then None
    else
      var front, s := events[..|events| - 1], After(events[..|events| - 1]);
      match events[|events| - 1]
      case Save(p, env) =>
        if Adopts(s, p, env) then Some(Wanted(p, Current(s), env.freshSlot)) else LastAdopted(front)
      case Work(_) => LastAdopted(front)
  }

  /**
   In every run the row is what the last adopted save asked for. A save answers success only when it was
   adopted and is refused or fails only when it was not; a cancelled one is adopted exactly when it
   reached its transaction and the commit was durable.
   */
  lemma {:induction false} AnswersAreTrue(events: seq<Event>)
    ensures After(events).row == LastAdopted(events)
    ensures forall i | 0 <= i < |events| && events[i].Save? ::
      var s, p, env := After(events[..i]), events[i].payload, events[i].env;
      && (Saved(s, p, env).1 == Ok ==> Adopts(s, p, env))
      && (Saved(s, p, env).1 in {BadRequest, Unavailable} ==> !Adopts(s, p, env))
  {
    if events != [] {
      var front := events[..|events| - 1];
      AnswersAreTrue(front);
      assert forall i | 0 <= i < |front| :: front[i] == events[i] && front[..i] == events[..i];
      match events[|events| - 1]
      case Save(p, env) => SaveChanges(After(front), p, env);
      case Work(_) =>
    }
  }

  ghost predicate SplitsAt(events: seq<Event>, i: nat)
    requires i < |events|
  {
    events[i].Save? && Splits(After(events[..i]), events[i].payload, events[i].env)
  }

  /** A later adopted save that writes the pointer mends what an earlier one left. */
  ghost predicate MendsAt(events: seq<Event>, i: nat)
    requires i < |events|
  {
    events[i].Save? && Adopts(After(events[..i]), events[i].payload, events[i].env)
      && events[i].payload.directory.Present?
  }

  ghost predicate LeftSplit(events: seq<Event>) {
    exists i: nat :: i < |events| && SplitsAt(events, i) && forall j: nat | i < j < |events| :: !MendsAt(events, j)
  }

  /**
   In every run pointer and row can be apart exactly when some save that moved the pointer was not durable
   and could not put it back, and no later adopted save wrote the pointer again.
   */
  lemma {:induction false} SplitsAreFailedCompensations(events: seq<Event>)
    ensures After(events).split <==> LeftSplit(events)
  {
    if events != [] {
      var n := |events| - 1;
      var front := events[..n];
      SplitsAreFailedCompensations(front);
      assert forall i: nat | i < n :: front[i] == events[i] && front[..i] == events[..i];
      forall i: nat | i < n
        ensures SplitsAt(front, i) == SplitsAt(events, i) && MendsAt(front, i) == MendsAt(events, i)
      {
        assert front[i] == events[i] && front[..i] == events[..i];
      }
      match events[n]
      case Save(p, env) =>
        SaveChanges(After(front), p, env);
        LeftByTheLast(events, front, n);
      case Work(_) => LeftByTheLast(events, front, n);
    }
  }

  lemma LeftByTheLast(events: seq<Event>, front: seq<Event>, n: nat)
    requires |events| == n + 1 && front == events[..n]
    requires forall i: nat | i < n :: SplitsAt(front, i) == SplitsAt(events, i)
    requires forall i: nat | i < n :: MendsAt(front, i) == MendsAt(events, i)
    ensures LeftSplit(events) <==> SplitsAt(events, n) || (LeftSplit(front) && !MendsAt(events, n))
  {
    if SplitsAt(events, n) {
      assert LeftSplit(events);
    }
    if LeftSplit(front) && !MendsAt(events, n) {
      var i: nat :| i < n && SplitsAt(front, i) && forall j: nat | i < j < n :: !MendsAt(front, j);
      assert SplitsAt(events, i);
      assert forall j: nat | i < j < |events| :: !MendsAt(events, j);
    }
    if LeftSplit(events) {
      LeftEarlier(events, front, n);
    }
  }

  lemma LeftEarlier(events: seq<Event>, front: seq<Event>, n: nat)
    requires |events| == n + 1 && |front| == n && LeftSplit(events)
    requires forall i: nat | i < n :: SplitsAt(front, i) == SplitsAt(events, i)
    requires forall i: nat | i < n :: MendsAt(front, i) == MendsAt(events, i)
    ensures SplitsAt(events, n) || (LeftSplit(front) && !MendsAt(events, n))
  {
    var i: nat :| i < |events| && SplitsAt(events, i) && forall j: nat | i < j < |events| :: !MendsAt(events, j);
    if i < n {
      assert SplitsAt(front, i);
      assert forall j: nat | i < j < n :: !MendsAt(front, j);
    }
  }

  // ----- the origin

  /**
   Without a new key or provider, and with hosts that are no IPv6 addresses, the key stays exactly when the
   request leaves the base URL alone or the new one has the recorded scheme, host and port. URLs without
   scheme or host have none of them, and so they all agree.
   */
  lemma KeyFollowsEndpoint(p: Payload, current: Row, slot: Slot)
    requires !p.key.Present? && !p.provider.Present? && current.credential.Some?
    requires p.baseUrl.Present? ==> HasPlainHost(p.baseUrl.value) && HasPlainHost(current.origin)
    ensures Wanted(p, current, slot).credential == current.credential <==>
      !p.baseUrl.Present? || EndpointOf(p.baseUrl.value) == EndpointOf(current.origin)
  {
    if p.baseUrl.Present? {
      OriginsAreEndpoints(p.baseUrl.value, current.origin);
    }
  }

  /** The request that writes another base URL and nothing else. */
  function NewBaseUrl(url: string): Payload { Payload(None, Absent, Absent, Present(Some(url)), Absent, Absent) }

  lemma KeyFollowsEqualOrigins(current: Row, a: string, b: string, slot: Slot)
    requires current.credential.Some? && current.origin == Some(a)
    requires NormalizedOrigin(Some(a)) == NormalizedOrigin(Some(b))
    ensures Wanted(NewBaseUrl(b), current, slot).credential == current.credential
    ensures Wanted(NewBaseUrl(b), current, slot).baseUrl == Some(b)
  {
  }

  /** Two base URLs of different sites, as written without a scheme: the key goes from one to the other. */
  lemma KeyFollowsBetweenBareHosts(current: Row, a: string, b: string, slot: Slot)
    requires ':' !in a && ':' !in b && current.credential.Some? && current.origin == Some(a)
    ensures Wanted(NewBaseUrl(b), current, slot).credential == current.credential
    ensures Wanted(NewBaseUrl(b), current, slot).baseUrl == Some(b)
  {
    NoSchemeNoOrigin(a);
    NoSchemeNoOrigin(b);
    KeyFollowsEqualOrigins(current, a, b, slot);
  }

  /** Two endpoints whose IPv6 hosts end in the port of the one and the last group of the other. */
  lemma KeyFollowsBetweenIpv6Hosts(
      current: Row, slot: Slot, first: string, port: nat, host: string, tail: string, a: string, b: string)
    requires Urls.Hextet(first) && Urls.Hextet(Decimal(port)) && port != 80 && port <= 65535
    requires host == "::" + first && tail == ":" + Decimal(port)
    requires a == "[" + (host + "]" + tail) && b == "[" + (host + tail + "]" + "")
    requires current.credential.Some? && current.origin == Some("http://" + a)
    ensures EndpointOf(Some("http://" + a)) != EndpointOf(Some("http://" + b))
    ensures Wanted(NewBaseUrl("http://" + b), current, slot).credential == current.credential
  {
    Ipv6OriginsCollide(first, port, host, tail, a, b);
    KeyFollowsEqualOrigins(current, "http://" + a, "http://" + b, slot);
  }

  /**
   A refused or failed save changes neither the row nor what the pointer reads as, if the pointer could
   be put back.
   */
  lemma FailedSavesLeaveNoTrace(s: State, p: Payload, env: Environment)
    requires Saved(s, p, env).1 in {BadRequest, Unavailable} && env.pointerRestorable
    ensures Saved(s, p, env).0.row == s.row
    ensures ReadPointer(Saved(s, p, env).0.pointer) == ReadPointer(s.pointer)
  {
    ReadPointerIsStripped(s.pointer);
  }
}
