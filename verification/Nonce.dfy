/**
  The executor's memory of used nonces: a map in memory, and the same map in a
  file that is rewritten by an atomic rename.
 */
module Nonce {
  import opened Wrappers

  datatype Refusal = NonceMissing | Replay | SaveFailed

  datatype State = State(used: map<string, int>, file: map<string, int>)

  /** The entries whose expiry has not passed. */
  function Pruned(used: map<string, int>, now: int): map<string, int> {
    map n | n in used && now <= used[n] :: used[n]
  }

  /** What one Reserve leaves behind, in memory and on disk. */
  function AfterReserve(s: State, nonce: string, expiresAt: int, now: int, fault: Fault): (State, Result<(), Refusal>) {
    if nonce == "" then (s, Err(NonceMissing))
    else
      var kept := Pruned(s.used, now);
      if nonce in kept then (State(kept, s.file), Err(Replay))
      else match fault
        case Clean => (State(kept[nonce := expiresAt], kept[nonce := expiresAt]), Ok(()))
        case BeforeRename => (State(kept, s.file), Err(SaveFailed))
        case AfterRename => (State(kept, kept[nonce := expiresAt]), Err(SaveFailed))
  }

  /** Exactly when a nonce is taken, and what each of the two maps holds afterwards. */
  lemma {:induction false} ReservedIff(s: State, nonce: string, expiresAt: int, now: int, fault: Fault)
    ensures var (s', reply) := AfterReserve(s, nonce, expiresAt, now, fault);
            var free := nonce != "" && (nonce in s.used ==> s.used[nonce] < now);
            && (reply.Ok? <==> free && fault.Clean?)
            && (forall n | n != nonce :: n in s'.used <==> n in s.used && (nonce != "" ==> now <= s.used[n]))
            && (forall n | n != nonce && n in s'.used :: s'.used[n] == s.used[n])
            && (reply.Ok? ==> Holds(s', nonce, expiresAt))
            && (reply.Err? && free ==> nonce !in s'.used)
            && (reply.Err? && !free ==> (nonce in s'.used <==> nonce in s.used) && (nonce in s.used ==> s'.used[nonce] == s.used[nonce]))
            && s'.file == if !free || fault.BeforeRename? then s.file else s'.used[nonce := expiresAt]
  {
  }

  /** One call in the life of the executor; a restart reloads the file. */
  datatype Event = Reserve(nonce: string, expiresAt: int, now: int, fault: Fault) | Restart

  function After(s: State, e: Event): State {
    match e
    case Reserve(n, x, now, f) => AfterReserve(s, n, x, now, f).0
    case Restart => State(s.file, s.file)
  }

  function AfterAll(s: State, events: seq<Event>): State
    decreases |events|
  {
    if events == [] then s else AfterAll(After(s, events[0]), events[1..])
  }

  /** No call in the run reads the clock after the given instant. */
  predicate NotAfter(events: seq<Event>, limit: int) {
    forall e <- events :: e.Reserve? ==> e.now <= limit
  }

  ghost predicate Holds(s: State, nonce: string, expiresAt: int) {
    nonce in s.used && s.used[nonce] == expiresAt && nonce in s.file && s.file[nonce] == expiresAt
  }

  lemma {:induction false} HeldUntilExpiry(s: State, nonce: string, expiresAt: int, events: seq<Event>)
    requires Holds(s, nonce, expiresAt)
    requires NotAfter(events, expiresAt)
    ensures Holds(AfterAll(s, events), nonce, expiresAt)
    decreases |events|
  {
    if events != [] {
      assert events[0] in events;
      HeldUntilExpiry(After(s, events[0]), nonce, expiresAt, events[1..]);
    }
  }

  /**
    A reserved nonce is refused at every clock reading up to its expiry, over
    any calls, failed saves and restarts in between; the first reading past
    the expiry prunes it and accepts it again.
   */
  lemma {:induction false} ReplayRefusedUntilExpiry(
      s: State, nonce: string, expiresAt: int, first: int, events: seq<Event>, second: int, again: int)
    requires AfterReserve(s, nonce, expiresAt, first, Clean).1.Ok?
    requires NotAfter(events, expiresAt)
    ensures AfterReserve(AfterAll(AfterReserve(s, nonce, expiresAt, first, Clean).0, events), nonce, again, second, Clean).1
            == if second <= expiresAt then Err(Replay) else Ok(())
  {
    var reserved := AfterReserve(s, nonce, expiresAt, first, Clean).0;
    HeldUntilExpiry(reserved, nonce, expiresAt, events);
  }

  class NonceStore {
    var used: map<string, int>
    var file: map<string, int>

    constructor (stored: map<string, int>)
      ensures used == stored && file == stored
    {
      used := stored;
      file := stored;
    }

    function Now(): State
      reads this
    {
      State(used, file)
    }

    /** The loop that forgets the nonces whose expiry has passed. */
    method Prune(now: int)
      modifies `used
      ensures used == Pruned(old(used), now)
    {
      var todo := used.Keys;
      while todo != {}
        invariant todo <= old(used).Keys
        invariant used == map n | n in old(used) && (n in todo || now <= old(used)[n]) :: old(used)[n]
        decreases |todo|
      {
        var value :| value in todo;
        if now > used[value] {
          used := used - {value};
        }
        todo := todo - {value};
      }
    }

    method Reserve(nonce: string, expiresAt: int, now: int, fault: Fault) returns (r: Result<(), Refusal>)
      modifies this
      ensures Now() == AfterReserve(old(Now()), nonce, expiresAt, now, fault).0
      ensures r == AfterReserve(old(Now()), nonce, expiresAt, now, fault).1
    {
      if nonce == "" {
        return Err(NonceMissing);
      }
      ghost var before := used;
      Prune(now);
      if nonce in used {
        return Err(Replay);
      }
      used := used[nonce := expiresAt];
      if !fault.BeforeRename? {
        file := used;
      }
      if !fault.Clean? {
        used := used - {nonce};
        assert used == Pruned(before, now);
        return Err(SaveFailed);
      }
      return Ok(());
    }
  }
}
