/**
  The hash-chained trace of one task: an append-only file of lines, and a head
  file that is replaced atomically after each line.

  The file is modelled symbol by symbol, so that a crash can tear a line
  anywhere. The writer spells each event in one way; the decoder may read many
  spellings as the same event, as a JSON decoder does with blanks, key order or
  unknown keys. It is a parameter, and all that is asked of it is that it reads
  what the writer writes. The payload of an event is its compact form, which is
  what the hash covers. The hash is a free constructor over the previous hash
  and the hashed fields.
 */
module Trace {
  import opened Wrappers
  import opened Paths

  datatype Canonical = Canonical(sequence: nat, timestamp: int, typ: string, taskId: string, sessionId: string, data: string)

  datatype Hash = Origin | H(previous: Hash, canonical: Canonical)

  datatype Event = Event(
    sequence: nat, timestamp: int, typ: string, taskId: string, sessionId: string, data: string,
    prevHash: Hash, eventHash: Hash)

  datatype Symbol = Newline | Blank | Piece(event: Event, index: nat)

  datatype HeadFile = NoHead | Head(count: nat, hash: Hash) | Unreadable

  /** The two files of one task. */
  datatype Files = Files(data: Option<seq<Symbol>>, head: HeadFile)

  // ----- encoding

  function Encode(e: Event): (line: seq<Symbol>)
    ensures |line| > 0 && Newline !in line
  {
    seq(|e.data| + 1, (i: nat) => Piece(e, i))
  }

  type Decoder = seq<Symbol> -> Option<Event>

  /** The decoder reads what the writer writes. */
  ghost predicate Reads(decode: Decoder) {
    forall e :: decode(Encode(e)) == Some(e)
  }

  function FirstNewline(data: seq<Symbol>): (k: nat)
    ensures k <= |data|
    ensures k < |data| ==> data[k] == Newline
    ensures forall i | 0 <= i < k :: data[i] != Newline
  {
    if data == [] || data[0] == Newline then 0 else 1 + FirstNewline(data[1..])
  }

  /** The length of the part that ends with the last newline. */
  function Whole(data: seq<Symbol>): (k: nat)
    ensures k <= |data|
    ensures k > 0 ==> data[k - 1] == Newline
    ensures forall i | k <= i < |data| :: data[i] != Newline
  {
    if data == [] then 0 else if data[|data| - 1] == Newline then |data| else Whole(data[..|data| - 1])
  }

  lemma {:induction false} FirstNewlineIs(line: seq<Symbol>, rest: seq<Symbol>)
    requires Newline !in line
    ensures var data := line + [Newline] + rest;
            FirstNewline(data) == |line| && data[..|line|] == line && data[|line| + 1..] == rest
  {
    var data := line + [Newline] + rest;
    assert data[|line|] == Newline;
    assert forall i | 0 <= i < |line| :: data[i] == line[i];
  }

  lemma {:induction false} WholeIs(data: seq<Symbol>, k: nat)
    requires k <= |data| && (k > 0 ==> data[k - 1] == Newline) && Newline !in data[k..]
    ensures Whole(data) == k
  {
    assert forall i | k <= i < |data| :: data[i] == data[k..][i - k];
  }

  /** A text of complete lines that decode to these events, in any spelling. */
  predicate Spells(decode: Decoder, data: seq<Symbol>, es: seq<Event>)
    decreases |es|
  {
    if es == [] then data == []
    else
      var k := FirstNewline(data);
      k < |data| && decode(data[..k]) == Some(es[0]) && Spells(decode, data[k + 1..], es[1..])
  }

  lemma {:induction false} SpellsWhole(decode: Decoder, data: seq<Symbol>, es: seq<Event>)
    requires Spells(decode, data, es)
    ensures Whole(data) == |data|
    ensures data != [] ==> data[|data| - 1] == Newline
    decreases |es|
  {
    if es != [] {
      var k := FirstNewline(data);
      SpellsWhole(decode, data[k + 1..], es[1..]);
      WholeIs(data, |data|);
    }
  }

  /** One more line, one more event. */
  lemma {:induction false} SpellsSnoc(decode: Decoder, data: seq<Symbol>, es: seq<Event>, line: seq<Symbol>, e: Event)
    requires Spells(decode, data, es) && Newline !in line && decode(line) == Some(e)
    ensures Spells(decode, data + (line + [Newline]), es + [e])
    decreases |es|
  {
    var tail := line + [Newline];
    if es == [] {
      FirstNewlineIs(line, []);
      assert data + tail == line + [Newline] + [];
      assert [] + [e] == [e] && [e][1..] == [];
    } else {
      var k := FirstNewline(data);
      assert data == data[..k] + [Newline] + data[k + 1..];
      FirstNewlineIs(data[..k], data[k + 1..] + tail);
      assert data + tail == data[..k] + [Newline] + (data[k + 1..] + tail);
      assert (es + [e])[1..] == es[1..] + [e];
      SpellsSnoc(decode, data[k + 1..], es[1..], line, e);
    }
  }

  // ----- the chain

  function Digest(e: Event): Hash {
    H(e.prevHash, Canonical(e.sequence, e.timestamp, e.typ, e.taskId, e.sessionId, e.data))
  }

  predicate Linked(taskId: string, e: Event, sequence: nat, previous: Hash) {
    e.sequence == sequence && e.taskId == taskId && e.prevHash == previous && e.eventHash == Digest(e)
  }

  /** The hash of the first n events. */
  function HashAt(es: seq<Event>, n: nat): Hash
    requires n <= |es|
  {
    if n == 0 then Origin else es[n - 1].eventHash
  }

  /** Event i has the next number, is of this task, names the hash before it and carries its own. */
  ghost predicate LinkedAt(taskId: string, es: seq<Event>, n: nat, previous: Hash, i: nat)
    requires i < |es|
  {
    && es[i].sequence == n + i + 1 && es[i].taskId == taskId
    && es[i].prevHash == (if i == 0 then previous else es[i - 1].eventHash)
    && es[i].eventHash == H(es[i].prevHash, Canonical(es[i].sequence, es[i].timestamp, es[i].typ, es[i].taskId, es[i].sessionId, es[i].data))
  }

  /** The events continue a chain of n events whose last hash is given. */
  ghost predicate ChainedFrom(taskId: string, es: seq<Event>, n: nat, previous: Hash) {
    forall i: nat | i < |es| :: LinkedAt(taskId, es, n, previous, i)
  }

  ghost predicate Chained(taskId: string, es: seq<Event>) {
    ChainedFrom(taskId, es, 0, Origin)
  }

  /** parseEvents on the rest of a file, n events and their last hash behind. */
  function Parse(decode: Decoder, taskId: string, data: seq<Symbol>, n: nat, previous: Hash): Option<seq<Event>>
    decreases |data|
  {
    if data == [] then Some([])
    else
      var k := FirstNewline(data);
      var line := decode(data[..k]);
      if k == |data| || line.None? || !Linked(taskId, line.value, n + 1, previous) then None
      else Prepend(line.value, Parse(decode, taskId, data[k + 1..], n + 1, line.value.eventHash))
  }

  function Prepend(e: Event, rest: Option<seq<Event>>): Option<seq<Event>> {
    if rest.None? then None else Some([e] + rest.value)
  }

  lemma {:induction false} ChainCons(taskId: string, e: Event, rest: seq<Event>, n: nat, previous: Hash)
    ensures ChainedFrom(taskId, [e] + rest, n, previous)
            <==> Linked(taskId, e, n + 1, previous) && ChainedFrom(taskId, rest, n + 1, e.eventHash)
  {
    var es := [e] + rest;
    assert LinkedAt(taskId, es, n, previous, 0) <==> Linked(taskId, e, n + 1, previous);
    assert forall i: nat {:trigger rest[i]} | i < |rest| :: es[i + 1] == rest[i];
    if ChainedFrom(taskId, es, n, previous) {
      var m := n + 1;
      forall i: nat | i < |rest|
        ensures LinkedAt(taskId, rest, m, e.eventHash, i)
      {
        assert LinkedAt(taskId, es, n, previous, i + 1) && es[i + 1] == rest[i];
      }
    }
    if Linked(taskId, e, n + 1, previous) && ChainedFrom(taskId, rest, n + 1, e.eventHash) {
      forall i: nat | i < |es|
        ensures LinkedAt(taskId, es, n, previous, i)
      {
        assert i > 0 ==> LinkedAt(taskId, rest, n + 1, e.eventHash, i - 1);
      }
    }
  }

  lemma {:induction false} ParseSound(decode: Decoder, taskId: string, data: seq<Symbol>, n: nat, previous: Hash)
    requires Parse(decode, taskId, data, n, previous).Some?
    ensures var es := Parse(decode, taskId, data, n, previous).value; Spells(decode, data, es) && ChainedFrom(taskId, es, n, previous)
    decreases |data|
  {
    if data != [] {
      var k := FirstNewline(data);
      var e := decode(data[..k]).value;
      var rest := Parse(decode, taskId, data[k + 1..], n + 1, e.eventHash).value;
      ParseSound(decode, taskId, data[k + 1..], n + 1, e.eventHash);
      ChainCons(taskId, e, rest, n, previous);
      assert ([e] + rest)[1..] == rest;
    }
  }

  lemma {:induction false} ParseComplete(decode: Decoder, taskId: string, data: seq<Symbol>, es: seq<Event>, n: nat, previous: Hash)
    requires Spells(decode, data, es) && ChainedFrom(taskId, es, n, previous)
    ensures Parse(decode, taskId, data, n, previous) == Some(es)
    decreases |es|
  {
    if es != [] {
      var k := FirstNewline(data);
      assert es == [es[0]] + es[1..];
      ChainCons(taskId, es[0], es[1..], n, previous);
      ParseComplete(decode, taskId, data[k + 1..], es[1..], n + 1, es[0].eventHash);
    }
  }

  /** Parsing accepts exactly the texts whose lines decode to a chained log, and returns the log. */
  lemma {:induction false} ParseIff(decode: Decoder, taskId: string, data: seq<Symbol>, es: seq<Event>)
    ensures Parse(decode, taskId, data, 0, Origin) == Some(es) <==> Spells(decode, data, es) && Chained(taskId, es)
  {
    if Parse(decode, taskId, data, 0, Origin) == Some(es) {
      ParseSound(decode, taskId, data, 0, Origin);
    }
    if Spells(decode, data, es) && Chained(taskId, es) {
      ParseComplete(decode, taskId, data, es, 0, Origin);
    }
  }

  /** A hash commits to everything before it: equal final hashes mean equal logs. */
  lemma {:induction false} HashDeterminesLog(taskId: string, a: seq<Event>, b: seq<Event>, n: nat)
    requires Chained(taskId, a) && Chained(taskId, b) && n <= |a| && n <= |b|
    requires HashAt(a, n) == HashAt(b, n)
    ensures a[..n] == b[..n]
  {
    if n > 0 {
      assert LinkedAt(taskId, a, 0, Origin, n - 1) && LinkedAt(taskId, b, 0, Origin, n - 1);
      assert a[n - 1] == b[n - 1];
      HashDeterminesLog(taskId, a, b, n - 1);
      assert a[..n] == a[..n - 1] + [a[n - 1]] && b[..n] == b[..n - 1] + [b[n - 1]];
    }
  }

  // ----- integrity

  function Content(f: Files): seq<Symbol> {
    if f.data.Some? then f.data.value else []
  }

  /** readHead: a missing head is an empty one only while there is no event data. */
  function ReadHead(f: Files): Option<(nat, Hash)> {
    match f.head
    case NoHead => if Content(f) != [] then None else Some((0, Origin))
    case Head(c, h) => Some((c, h))
    case Unreadable => None
  }

  /** VerifyIntegrity. */
  predicate Verified(decode: Decoder, taskId: string, f: Files) {
    && f.data.Some?
    && Whole(f.data.value) == |f.data.value|
    && var es := Parse(decode, taskId, f.data.value, 0, Origin);
       es.Some? && ReadHead(f) == Some((|es.value|, HashAt(es.value, |es.value|)))
  }

  /** What verification means: the lines decode to a chained log, and the head is its length and last hash. */
  lemma {:induction false} VerifiedIff(decode: Decoder, taskId: string, f: Files, es: seq<Event>)
    requires f.data.Some?
    ensures Verified(decode, taskId, f) && Parse(decode, taskId, f.data.value, 0, Origin) == Some(es)
            <==> Spells(decode, f.data.value, es) && Chained(taskId, es) && ReadHead(f) == Some((|es|, HashAt(es, |es|)))
  {
    ParseIff(decode, taskId, f.data.value, es);
    if Spells(decode, f.data.value, es) {
      SpellsWhole(decode, f.data.value, es);
    }
  }

  /**
    Tamper evidence: against one head only one log verifies. Any edit that
    changes, deletes, inserts or reorders events is rejected.
   */
  lemma {:induction false} OneLogPerHead(decode: Decoder, taskId: string, f: Files, g: Files)
    requires Verified(decode, taskId, f) && Verified(decode, taskId, g) && ReadHead(f) == ReadHead(g)
    ensures Parse(decode, taskId, f.data.value, 0, Origin) == Parse(decode, taskId, g.data.value, 0, Origin)
  {
    var a := Parse(decode, taskId, f.data.value, 0, Origin).value;
    var b := Parse(decode, taskId, g.data.value, 0, Origin).value;
    ParseIff(decode, taskId, f.data.value, a);
    ParseIff(decode, taskId, g.data.value, b);
    HashDeterminesLog(taskId, a, b, |a|);
    assert a[..|a|] == a && b[..|b|] == b;
  }

  /** And exactly those: a text put in the place of a verified one passes just when its lines decode to the same events. */
  lemma {:induction false} EditPassesIff(decode: Decoder, taskId: string, f: Files, g: Files, es: seq<Event>)
    requires Verified(decode, taskId, f) && Parse(decode, taskId, f.data.value, 0, Origin) == Some(es)
    requires g.data.Some? && ReadHead(g) == ReadHead(f)
    ensures Verified(decode, taskId, g) <==> Spells(decode, g.data.value, es)
  {
    VerifiedIff(decode, taskId, f, es);
    VerifiedIff(decode, taskId, g, es);
    if Verified(decode, taskId, g) {
      OneLogPerHead(decode, taskId, f, g);
    }
  }

  // ----- a decoder that is not the inverse of the encoder

  function Stripped(line: seq<Symbol>): seq<Symbol> {
    if line == [] then [] else (if line[0].Blank? then [] else [line[0]]) + Stripped(line[1..])
  }

  /** Reads a line whatever blanks are in it. */
  function Lenient(line: seq<Symbol>): Option<Event> {
    var text := Stripped(line);
    if text == [] || !text[0].Piece? || text != Encode(text[0].event) then None else Some(text[0].event)
  }

  lemma {:induction false} NothingToStrip(line: seq<Symbol>)
    requires Blank !in line
    ensures Stripped(line) == line
  {
    if line != [] {
      NothingToStrip(line[1..]);
      assert line == [line[0]] + line[1..];
    }
  }

  lemma {:induction false} LenientReads()
    ensures Reads(Lenient)
  {
    forall e: Event
      ensures Lenient(Encode(e)) == Some(e)
    {
      NothingToStrip(Encode(e));
      assert Encode(e)[0] == Piece(e, 0);
    }
  }

  /** With such a decoder an edit of bytes alone passes: a blank before the first line verifies against the same head. */
  lemma {:induction false} BlankEditPasses(taskId: string, f: Files, es: seq<Event>)
    requires Verified(Lenient, taskId, f) && Parse(Lenient, taskId, f.data.value, 0, Origin) == Some(es) && es != []
    ensures var g := f.(data := Some([Blank] + f.data.value)); Verified(Lenient, taskId, g) && g.data != f.data
  {
    var data := f.data.value;
    VerifiedIff(Lenient, taskId, f, es);
    BlankIsRead(data, es);
    EditPassesIff(Lenient, taskId, f, f.(data := Some([Blank] + data)), es);
    assert |[Blank] + data| == |data| + 1;
  }

  lemma {:induction false} BlankIsRead(data: seq<Symbol>, es: seq<Event>)
    requires Spells(Lenient, data, es) && es != []
    ensures Spells(Lenient, [Blank] + data, es)
  {
    var k := FirstNewline(data);
    var line, rest := data[..k], data[k + 1..];
    assert data == line + [Newline] + rest;
    FirstNewlineIs([Blank] + line, rest);
    assert [Blank] + data == [Blank] + line + [Newline] + rest;
    assert ([Blank] + line)[1..] == line;
    assert Stripped([Blank] + line) == Stripped(line);
  }

  // ----- recovery

  /** The log of complete lines in a file. */
  function LogOf(decode: Decoder, taskId: string, f: Files): seq<Event> {
    var es := Parse(decode, taskId, Content(f)[..Whole(Content(f))], 0, Origin);
    if es.Some? then es.value else []
  }

  datatype Recovered = Recovered(files: Files, head: Option<(nat, Hash)>)

  const RECOVERY_WRITES := 2

  /**
    recoverLocked, cut off after a number of writes: drop a torn tail, check
    the committed prefix against the head, and adopt complete lines that the
    head does not count yet.
   */
  function Recover(decode: Decoder, taskId: string, f: Files, writes: nat): Recovered {
    var h := ReadHead(f);
    if h.None? then Recovered(f, None)
    else if f.data.None? then Recovered(f, if h.value == (0, Origin) then h else None)
    else
      var data := f.data.value;
      var whole := Whole(data);
      var parsed := Parse(decode, taskId, data[..whole], 0, Origin);
      if parsed.None? || h.value.0 > |parsed.value| || HashAt(parsed.value, h.value.0) != h.value.1 then Recovered(f, None)
      else
        var es := parsed.value;
        var torn := whole < |data|;
        var last := (|es|, HashAt(es, |es|));
        var f1 := f.(data := Some(data[..whole]));
        if torn && writes == 0 then Recovered(f, None)
        else if |es| <= h.value.0 then Recovered(f1, h)
        else if writes <= (if torn then 1 else 0) then Recovered(f1, None)
        else Recovered(f1.(head := Head(last.0, last.1)), Some(last))
  }

  /** A disk that a writer and any crashes can leave: a log in any spelling, perhaps a torn tail, and a head that counts a prefix of the log. */
  ghost predicate Holds(decode: Decoder, taskId: string, f: Files, es: seq<Event>) {
    && Chained(taskId, es)
    && Spells(decode, Content(f)[..Whole(Content(f))], es)
    && (if f.head.NoHead? then Content(f) == []
        else f.head.Head? && f.head.count <= |es| && f.head.hash == HashAt(es, f.head.count))
  }

  lemma {:induction false} LogOfHeld(decode: Decoder, taskId: string, f: Files, es: seq<Event>)
    requires Holds(decode, taskId, f, es)
    ensures LogOf(decode, taskId, f) == es
  {
    ParseIff(decode, taskId, Content(f)[..Whole(Content(f))], es);
  }

  /** A clean file with a head that counts any prefix of it. */
  lemma {:induction false} CleanHolds(decode: Decoder, taskId: string, f: Files, es: seq<Event>)
    requires Chained(taskId, es) && Spells(decode, Content(f), es)
    requires f.head.Head? && f.head.count <= |es| && f.head.hash == HashAt(es, f.head.count)
    ensures Holds(decode, taskId, f, es)
  {
    SpellsWhole(decode, Content(f), es);
    assert Content(f)[..|Content(f)|] == Content(f);
  }

  /** What Recover computes on a disk that holds a log. */
  lemma {:induction false} RecoverOnHeld(decode: Decoder, taskId: string, f: Files, es: seq<Event>, writes: nat)
    requires Holds(decode, taskId, f, es) && f.data.Some?
    ensures var whole := Whole(Content(f));
            var torn := whole < |Content(f)|;
            var f1 := f.(data := Some(Content(f)[..whole]));
            var counted := if f.head.Head? then f.head.count else 0;
            Recover(decode, taskId, f, writes) ==
              if torn && writes == 0 then Recovered(f, None)
              else if counted == |es| then Recovered(f1, Some((|es|, HashAt(es, |es|))))
              else if writes <= (if torn then 1 else 0) then Recovered(f1, None)
              else Recovered(f1.(head := Head(|es|, HashAt(es, |es|))), Some((|es|, HashAt(es, |es|))))
  {
    ParseIff(decode, taskId, Content(f)[..Whole(Content(f))], es);
  }

  /**
    Recovery succeeds on every such disk and loses nothing: it ends with a
    clean file, a head that counts the whole log, and the same log; cut off
    anywhere, it leaves a disk that still holds that log.
   */
  lemma {:induction false} RecoveryKeepsLog(decode: Decoder, taskId: string, f: Files, es: seq<Event>, writes: nat)
    requires Holds(decode, taskId, f, es)
    ensures var r := Recover(decode, taskId, f, writes);
            && Holds(decode, taskId, r.files, es)
            && (writes >= RECOVERY_WRITES ==> r.head.Some?)
            && (r.head.Some? ==>
                  && r.head == Some((|es|, HashAt(es, |es|)))
                  && Content(r.files) == Content(f)[..Whole(Content(f))]
                  && Spells(decode, Content(r.files), es)
                  && ReadHead(r.files) == r.head)
  {
    if f.data.Some? {
      RecoverOnHeld(decode, taskId, f, es, writes);
      var r := Recover(decode, taskId, f, writes);
      if r.files != f {
        CleanHolds(decode, taskId, r.files, es);
      }
      if r.head.Some? {
        assert Content(r.files) == Content(f)[..Whole(Content(f))];
      }
    }
  }

  /**
    Exactly which files a recovery accepts: a head that can be read, and lines
    that decode to a chained log which the head counts a prefix of. In
    particular a head that is gone over event data is refused.
   */
  lemma {:induction false} RecoveryAcceptsIff(decode: Decoder, taskId: string, f: Files)
    ensures Recover(decode, taskId, f, RECOVERY_WRITES).head.Some? <==>
              exists es ::
                && Chained(taskId, es) && Spells(decode, Content(f)[..Whole(Content(f))], es)
                && (f.head.NoHead? ==> Content(f) == [])
                && !f.head.Unreadable?
                && (f.head.Head? ==> f.head.count <= |es| && f.head.hash == HashAt(es, f.head.count))
  {
    var data := Content(f)[..Whole(Content(f))];
    if Recover(decode, taskId, f, RECOVERY_WRITES).head.Some? {
      var es := if f.data.Some? then Parse(decode, taskId, data, 0, Origin).value else [];
      ParseIff(decode, taskId, data, es);
    }
    forall es | Chained(taskId, es) && Spells(decode, data, es)
      ensures Parse(decode, taskId, data, 0, Origin) == Some(es)
    {
      ParseIff(decode, taskId, data, es);
    }
  }

  /** And verification accepts no file without event data, and none whose head cannot be read or is gone. */
  lemma {:induction false} HeadIsNeeded(decode: Decoder, taskId: string, f: Files)
    requires f.data.None? || f.head.Unreadable? || (f.head.NoHead? && f.data != Some([]))
    ensures !Verified(decode, taskId, f)
  {
  }

  /** Whatever was done to the event file, recovery accepts it only with the committed log as a prefix. */
  lemma {:induction false} RecoveryRejectsLostPrefix(decode: Decoder, taskId: string, f: Files, committed: seq<Event>, writes: nat)
    requires Chained(taskId, committed) && f.head == Head(|committed|, HashAt(committed, |committed|))
    requires Recover(decode, taskId, f, writes).head.Some?
    ensures committed <= LogOf(decode, taskId, Recover(decode, taskId, f, writes).files)
  {
    if f.data.Some? {
      var data := f.data.value[..Whole(f.data.value)];
      var es := Parse(decode, taskId, data, 0, Origin).value;
      ParseIff(decode, taskId, data, es);
      HashDeterminesLog(taskId, committed, es, |committed|);
      assert committed[..|committed|] == committed;
      assert Content(Recover(decode, taskId, f, writes).files) == data;
      SpellsWhole(decode, data, es);
      assert data[..|data|] == data;
    } else {
      assert committed == [];
    }
  }

  // ----- appending

  datatype Draft = Draft(timestamp: int, typ: string, sessionId: string, data: string)

  /** Where an Append stops, by a crash or a reported failure. */
  datatype Cut =
    | Never
    | Recovering(writes: nat)
    | BeforeFirstHead
    | BeforeOpen
    | Writing(symbols: nat)
    | AfterHead

  function NextEvent(taskId: string, head: (nat, Hash), d: Draft): Event {
    var e := Event(head.0 + 1, d.timestamp, d.typ, taskId, d.sessionId, d.data, head.1, Origin);
    e.(eventHash := Digest(e))
  }

  /** The event says what was submitted, field by field, for this task. */
  predicate Says(e: Event, taskId: string, d: Draft) {
    e.timestamp == d.timestamp && e.typ == d.typ && e.sessionId == d.sessionId && e.data == d.data && e.taskId == taskId
  }

  /** The part of Append behind the recovery: open the file, write the line, replace the head. */
  function WriteEvent(f1: Files, e: Event, cut: Cut): (Files, Option<Event>) {
    var line := Encode(e) + [Newline];
    var f2 := f1.(data := Some(Content(f1) + line));
    var f3 := f2.(head := Head(e.sequence, e.eventHash));
    match cut
    case BeforeOpen => (f1, None)
    case Writing(k) => if k < |line| then (f1.(data := Some(Content(f1) + line[..k])), None) else (f2, None)
    case AfterHead => (f3, None)
    case _ => (f3, Some(e))
  }

  function Append(decode: Decoder, taskId: string, f: Files, d: Draft, cut: Cut): (Files, Option<Event>) {
    var r := Recover(decode, taskId, f, if cut.Recovering? then cut.writes else RECOVERY_WRITES);
    if r.head.None? || cut.Recovering? || cut.BeforeFirstHead? then (r.files, None)
    else WriteEvent(WithHead(r.files), NextEvent(taskId, r.head.value, d), cut)
  }

  function WithHead(f: Files): Files {
    if f.head.NoHead? then f.(head := Head(0, Origin)) else f
  }

  lemma {:induction false} ChainedSnoc(taskId: string, es: seq<Event>, d: Draft)
    requires Chained(taskId, es)
    ensures Chained(taskId, es + [NextEvent(taskId, (|es|, HashAt(es, |es|)), d)])
  {
    var es' := es + [NextEvent(taskId, (|es|, HashAt(es, |es|)), d)];
    forall i: nat | i < |es'|
      ensures LinkedAt(taskId, es', 0, Origin, i)
    {
      assert i < |es| ==> LinkedAt(taskId, es, 0, Origin, i);
    }
  }

  lemma {:induction false} TornLineHolds(decode: Decoder, taskId: string, f1: Files, es: seq<Event>, e: Event, k: nat)
    requires Chained(taskId, es) && Spells(decode, Content(f1), es) && f1.head == Head(|es|, HashAt(es, |es|))
    requires k <= |Encode(e)|
    ensures Holds(decode, taskId, f1.(data := Some(Content(f1) + (Encode(e) + [Newline])[..k])), es)
  {
    var tail := Encode(e)[..k];
    assert (Encode(e) + [Newline])[..k] == tail;
    SpellsWhole(decode, Content(f1), es);
    assert (Content(f1) + tail)[|Content(f1)|..] == tail && (Content(f1) + tail)[..|Content(f1)|] == Content(f1);
    WholeIs(Content(f1) + tail, |Content(f1)|);
  }

  lemma {:induction false} WholeLineHolds(decode: Decoder, taskId: string, f1: Files, es: seq<Event>, d: Draft)
    requires Reads(decode)
    requires Chained(taskId, es) && Spells(decode, Content(f1), es) && f1.head == Head(|es|, HashAt(es, |es|))
    ensures var e := NextEvent(taskId, (|es|, HashAt(es, |es|)), d);
            var f2 := f1.(data := Some(Content(f1) + (Encode(e) + [Newline])));
            var f3 := f2.(head := Head(e.sequence, e.eventHash));
            Holds(decode, taskId, f2, es + [e]) && Holds(decode, taskId, f3, es + [e]) && Verified(decode, taskId, f3)
  {
    var e := NextEvent(taskId, (|es|, HashAt(es, |es|)), d);
    var line := Encode(e) + [Newline];
    var f2 := f1.(data := Some(Content(f1) + line));
    var f3 := f2.(head := Head(e.sequence, e.eventHash));
    SpellsSnoc(decode, Content(f1), es, Encode(e), e);
    ChainedSnoc(taskId, es, d);
    CleanHolds(decode, taskId, f2, es + [e]);
    CleanHolds(decode, taskId, f3, es + [e]);
    VerifiedIff(decode, taskId, f3, es + [e]);
  }

  /** The line and its head, on a recovered disk whose head exists. */
  lemma {:induction false} WriteIsAtomic(decode: Decoder, taskId: string, f1: Files, es: seq<Event>, d: Draft, cut: Cut)
    requires Reads(decode)
    requires Chained(taskId, es) && Spells(decode, Content(f1), es) && f1.head == Head(|es|, HashAt(es, |es|))
    ensures var e := NextEvent(taskId, (|es|, HashAt(es, |es|)), d);
            var w := WriteEvent(f1, e, cut);
            Holds(decode, taskId, w.0, es) || Holds(decode, taskId, w.0, es + [e])
    ensures var e := NextEvent(taskId, (|es|, HashAt(es, |es|)), d);
            var w := WriteEvent(f1, e, cut);
            w.1.Some? ==> w.1 == Some(e) && Holds(decode, taskId, w.0, es + [e]) && Verified(decode, taskId, w.0)
  {
    var e := NextEvent(taskId, (|es|, HashAt(es, |es|)), d);
    if cut.BeforeOpen? {
      CleanHolds(decode, taskId, f1, es);
    } else if cut.Writing? && cut.symbols < |Encode(e) + [Newline]| {
      TornLineHolds(decode, taskId, f1, es, e, cut.symbols);
    } else {
      WholeLineHolds(decode, taskId, f1, es, d);
    }
  }

  /**
    A crash at any point of Append leaves the previous log, or that log and
    exactly the event in flight; and an Append that reports success has
    stored its event under the next sequence number.
   */
  lemma {:induction false} AppendIsAtomic(decode: Decoder, taskId: string, f: Files, es: seq<Event>, d: Draft, cut: Cut)
    requires Reads(decode)
    requires Holds(decode, taskId, f, es)
    ensures var (f', reply) := Append(decode, taskId, f, d, cut);
            var e := NextEvent(taskId, (|es|, HashAt(es, |es|)), d);
            && (Holds(decode, taskId, f', es) || Holds(decode, taskId, f', es + [e]))
            && Says(e, taskId, d) && e.sequence == |es| + 1
            && (reply.Some? ==> reply == Some(e) && Holds(decode, taskId, f', es + [e]) && Verified(decode, taskId, f'))
            && (cut.Never? ==> reply.Some?)
  {
    var writes := if cut.Recovering? then cut.writes else RECOVERY_WRITES;
    RecoveryKeepsLog(decode, taskId, f, es, writes);
    var r := Recover(decode, taskId, f, writes);
    if r.head.Some? && !cut.Recovering? && !cut.BeforeFirstHead? {
      WriteIsAtomic(decode, taskId, WithHead(r.files), es, d, cut);
    }
  }

  /** The same, told of the log itself. */
  lemma {:induction false} AppendGrowsLog(decode: Decoder, taskId: string, f: Files, d: Draft, cut: Cut)
    requires Reads(decode)
    requires Holds(decode, taskId, f, LogOf(decode, taskId, f))
    ensures var (f', reply) := Append(decode, taskId, f, d, cut);
            && Holds(decode, taskId, f', LogOf(decode, taskId, f'))
            && LogOf(decode, taskId, f) <= LogOf(decode, taskId, f')
            && (reply.Some? ==> LogOf(decode, taskId, f') == LogOf(decode, taskId, f) + [reply.value])
            && (reply.Some? ==> reply.value.sequence == |LogOf(decode, taskId, f')| && Says(reply.value, taskId, d))
            && (cut.Never? ==> reply.Some?)
  {
    var es := LogOf(decode, taskId, f);
    var e := NextEvent(taskId, (|es|, HashAt(es, |es|)), d);
    var (f', reply) := Append(decode, taskId, f, d, cut);
    AppendIsAtomic(decode, taskId, f, es, d, cut);
    if reply.Some? || !Holds(decode, taskId, f', es) {
      LogOfHeld(decode, taskId, f', es + [e]);
    } else {
      LogOfHeld(decode, taskId, f', es);
    }
  }

  // ----- every run

  /** One thing that happens to the files of a task: an append, or a start of the server, each cut off anywhere. */
  datatype Op = Appending(draft: Draft, cut: Cut) | Reopening(writes: nat)

  function AfterOp(decode: Decoder, taskId: string, f: Files, op: Op): Files {
    match op
    case Appending(d, cut) => Append(decode, taskId, f, d, cut).0
    case Reopening(writes) => Recover(decode, taskId, f, writes).files
  }

  function AfterOps(decode: Decoder, taskId: string, f: Files, ops: seq<Op>): Files
    decreases |ops|
  {
    if ops == [] then f else AfterOps(decode, taskId, AfterOp(decode, taskId, f, ops[0]), ops[1..])
  }

  /** What a caller has in hand after a success: what it submitted, and the event it got back. */
  datatype Receipt = Receipt(draft: Draft, event: Event)

  /** The receipt this operation gave, if any. */
  function Replied(decode: Decoder, taskId: string, f: Files, op: Op): seq<Receipt> {
    match op
    case Appending(d, cut) =>
      var reply := Append(decode, taskId, f, d, cut).1;
      if reply.Some? then [Receipt(d, reply.value)] else []
    case Reopening(_) => []
  }

  /** The receipts of all appends that returned success. */
  function Acknowledged(decode: Decoder, taskId: string, f: Files, ops: seq<Op>): seq<Receipt>
    decreases |ops|
  {
    if ops == [] then [] else Replied(decode, taskId, f, ops[0]) + Acknowledged(decode, taskId, AfterOp(decode, taskId, f, ops[0]), ops[1..])
  }

  const EMPTY_FILES := Files(None, NoHead)

  /** The log has, under the number on each receipt, the event on it, which says what was submitted. */
  ghost predicate InPlace(receipts: seq<Receipt>, taskId: string, log: seq<Event>) {
    forall r <- receipts :: 1 <= r.event.sequence <= |log| && log[r.event.sequence - 1] == r.event && Says(r.event, taskId, r.draft)
  }

  lemma {:induction false} StepSurvives(decode: Decoder, taskId: string, f: Files, es: seq<Event>, op: Op) returns (next: seq<Event>)
    requires Reads(decode)
    requires Holds(decode, taskId, f, es)
    ensures Holds(decode, taskId, AfterOp(decode, taskId, f, op), next) && es <= next && InPlace(Replied(decode, taskId, f, op), taskId, next)
  {
    next := es;
    match op {
      case Appending(d, cut) =>
        AppendIsAtomic(decode, taskId, f, es, d, cut);
        if Append(decode, taskId, f, d, cut).1.Some? || !Holds(decode, taskId, AfterOp(decode, taskId, f, op), es) {
          next := es + [NextEvent(taskId, (|es|, HashAt(es, |es|)), d)];
        }
      case Reopening(writes) => RecoveryKeepsLog(decode, taskId, f, es, writes);
    }
  }

  lemma {:induction false} LogSurvives(decode: Decoder, taskId: string, f: Files, es: seq<Event>, ops: seq<Op>)
    requires Reads(decode)
    requires Holds(decode, taskId, f, es)
    ensures var log := LogOf(decode, taskId, AfterOps(decode, taskId, f, ops));
            Holds(decode, taskId, AfterOps(decode, taskId, f, ops), log) && es <= log && InPlace(Acknowledged(decode, taskId, f, ops), taskId, log)
    decreases |ops|
  {
    if ops == [] {
      LogOfHeld(decode, taskId, f, es);
    } else {
      var next := StepSurvives(decode, taskId, f, es, ops[0]);
      LogSurvives(decode, taskId, AfterOp(decode, taskId, f, ops[0]), next, ops[1..]);
      InPlaceGrows(Replied(decode, taskId, f, ops[0]), taskId, next, LogOf(decode, taskId, AfterOps(decode, taskId, f, ops)));
    }
  }

  lemma {:induction false} InPlaceGrows(receipts: seq<Receipt>, taskId: string, log: seq<Event>, longer: seq<Event>)
    requires InPlace(receipts, taskId, log) && log <= longer
    ensures InPlace(receipts, taskId, longer)
  {
    assert forall i | 0 <= i < |log| :: longer[i] == log[i];
  }

  /**
    From an empty directory, over any appends and restarts, each cut off
    anywhere: the next start recovers, and whatever was acknowledged is in the
    recovered log under the number given, as it was submitted.
   */
  lemma {:induction false} AcknowledgedEventsSurvive(decode: Decoder, taskId: string, ops: seq<Op>)
    requires Reads(decode)
    ensures var r := Recover(decode, taskId, AfterOps(decode, taskId, EMPTY_FILES, ops), RECOVERY_WRITES);
            var log := LogOf(decode, taskId, r.files);
            && r.head == Some((|log|, HashAt(log, |log|)))
            && Chained(taskId, log)
            && InPlace(Acknowledged(decode, taskId, EMPTY_FILES, ops), taskId, log)
  {
    assert Holds(decode, taskId, EMPTY_FILES, []);
    LogSurvives(decode, taskId, EMPTY_FILES, [], ops);
    var f := AfterOps(decode, taskId, EMPTY_FILES, ops);
    var log := LogOf(decode, taskId, f);
    RecoveryKeepsLog(decode, taskId, f, log, RECOVERY_WRITES);
    LogOfHeld(decode, taskId, Recover(decode, taskId, f, RECOVERY_WRITES).files, log);
  }

  lemma {:induction false} OneAppended(decode: Decoder, taskId: string, f: Files, es: seq<Event>, d: Draft) returns (e: Event)
    requires Reads(decode) && Holds(decode, taskId, f, es)
    ensures Says(e, taskId, d) && Append(decode, taskId, f, d, Never).1 == Some(e)
    ensures Holds(decode, taskId, AfterOp(decode, taskId, f, Appending(d, Never)), es + [e])
  {
    e := NextEvent(taskId, (|es|, HashAt(es, |es|)), d);
    AppendIsAtomic(decode, taskId, f, es, d, Never);
  }

  /** Appends that nothing interrupts. */
  function Appends(drafts: seq<Draft>): seq<Op> {
    if drafts == [] then [] else [Appending(drafts[0], Never)] + Appends(drafts[1..])
  }

  /** One event for each draft, in order. */
  predicate Tells(es: seq<Event>, taskId: string, drafts: seq<Draft>)
    decreases |drafts|
  {
    if drafts == [] then es == [] else es != [] && Says(es[0], taskId, drafts[0]) && Tells(es[1..], taskId, drafts[1..])
  }

  lemma {:induction false} TellsAt(es: seq<Event>, taskId: string, drafts: seq<Draft>, i: nat)
    requires Tells(es, taskId, drafts) && i < |drafts|
    ensures |es| == |drafts| && Says(es[i], taskId, drafts[i])
    decreases |drafts|
  {
    if i > 0 {
      TellsAt(es[1..], taskId, drafts[1..], i - 1);
    } else if |drafts| > 1 {
      TellsAt(es[1..], taskId, drafts[1..], 0);
    }
  }

  /** Without failures the log is what was appended. */
  lemma {:induction false} AllAppended(decode: Decoder, taskId: string, f: Files, es: seq<Event>, drafts: seq<Draft>)
    requires Reads(decode) && Holds(decode, taskId, f, es)
    ensures var log := LogOf(decode, taskId, AfterOps(decode, taskId, f, Appends(drafts)));
            es <= log && Tells(log[|es|..], taskId, drafts)
    decreases |drafts|
  {
    if drafts == [] {
      LogOfHeld(decode, taskId, f, es);
      assert es[|es|..] == [];
    } else {
      var e := OneAppended(decode, taskId, f, es, drafts[0]);
      var f' := AfterOp(decode, taskId, f, Appending(drafts[0], Never));
      AllAppended(decode, taskId, f', es + [e], drafts[1..]);
      StepFirst(decode, taskId, f, drafts);
      BehindOne(es, e, LogOf(decode, taskId, AfterOps(decode, taskId, f', Appends(drafts[1..]))));
    }
  }

  lemma {:induction false} BehindOne(es: seq<Event>, e: Event, log: seq<Event>)
    requires es + [e] <= log
    ensures es <= log && log[|es|..] == [e] + log[|es| + 1..] && log[|es|..][1..] == log[|es| + 1..]
  {
    assert log[|es|] == (es + [e])[|es|] == e;
    assert log[..|es|] == (es + [e])[..|es|] == es;
  }

  lemma {:induction false} StepFirst(decode: Decoder, taskId: string, f: Files, drafts: seq<Draft>)
    requires drafts != []
    ensures AfterOps(decode, taskId, f, Appends(drafts))
         == AfterOps(decode, taskId, AfterOp(decode, taskId, f, Appending(drafts[0], Never)), Appends(drafts[1..]))
    ensures Acknowledged(decode, taskId, f, Appends(drafts))
         == Replied(decode, taskId, f, Appending(drafts[0], Never))
            + Acknowledged(decode, taskId, AfterOp(decode, taskId, f, Appending(drafts[0], Never)), Appends(drafts[1..]))
  {
    assert Appends(drafts)[0] == Appending(drafts[0], Never) && Appends(drafts)[1..] == Appends(drafts[1..]);
  }

  /** And each draft has its receipt. */
  lemma {:induction false} AllReceipted(decode: Decoder, taskId: string, f: Files, es: seq<Event>, drafts: seq<Draft>)
    requires Reads(decode) && Holds(decode, taskId, f, es)
    ensures var receipts := Acknowledged(decode, taskId, f, Appends(drafts));
            |receipts| == |drafts| && forall i | 0 <= i < |drafts| :: receipts[i].draft == drafts[i]
    decreases |drafts|
  {
    if drafts != [] {
      var e := OneAppended(decode, taskId, f, es, drafts[0]);
      StepFirst(decode, taskId, f, drafts);
      AllReceipted(decode, taskId, AfterOp(decode, taskId, f, Appending(drafts[0], Never)), es + [e], drafts[1..]);
    }
  }

  // ----- the writer itself

  datatype Error = InvalidId | BrokenTrace | Failed

  function FilesOf(dir: map<string, Files>, taskId: string): Files {
    if taskId in dir then dir[taskId] else EMPTY_FILES
  }

  /** The result of a parse whose first events are already collected. */
  function After(events: seq<Event>, rest: Option<seq<Event>>): Option<seq<Event>> {
    if rest.None? then None else Some(events + rest.value)
  }

  lemma {:induction false} Behind(none: seq<Event>, rest: Option<seq<Event>>)
    requires none == []
    ensures After(none, rest) == rest
  {
    if rest.Some? {
      assert none + rest.value == rest.value;
    }
  }

  lemma {:induction false} ParseStep(decode: Decoder, taskId: string, data: seq<Symbol>, events: seq<Event>, previous: Hash)
    requires data != []
    ensures var k := FirstNewline(data);
            var line := decode(data[..k]);
            After(events, Parse(decode, taskId, data, |events|, previous)) ==
              if k == |data| || line.None? || !Linked(taskId, line.value, |events| + 1, previous) then None
              else After(events + [line.value], Parse(decode, taskId, data[k + 1..], |events| + 1, line.value.eventHash))
  {
    var k := FirstNewline(data);
    var line := decode(data[..k]);
    if k < |data| && line.Some? && Linked(taskId, line.value, |events| + 1, previous) {
      var rest := Parse(decode, taskId, data[k + 1..], |events| + 1, line.value.eventHash);
      if rest.Some? {
        assert events + ([line.value] + rest.value) == events + [line.value] + rest.value;
      }
    }
  }

  class Writer {
    const decode: Decoder
    var dir: map<string, Files>

    constructor (decode: Decoder)
      ensures dir == map[] && this.decode == decode
    {
      this.decode := decode;
      dir := map[];
    }

    /** parseEvents: one pass over the lines, carrying the events so far and their last hash. */
    method ParseEvents(taskId: string, data: seq<Symbol>) returns (r: Option<seq<Event>>)
      ensures r == Parse(decode, taskId, data, 0, Origin)
    {
      var events: seq<Event> := [];
      var previous := Origin;
      var rest := data;
      Behind([], Parse(decode, taskId, data, 0, Origin));
      while rest != []
        invariant Parse(decode, taskId, data, 0, Origin) == After(events, Parse(decode, taskId, rest, |events|, previous))
        decreases |rest|
      {
        ParseStep(decode, taskId, rest, events, previous);
        var end := FirstNewline(rest);
        if end == |rest| {
          return None;
        }
        var line := decode(rest[..end]);
        if line.None? || !Linked(taskId, line.value, |events| + 1, previous) {
          return None;
        }
        events := events + [line.value];
        previous := line.value.eventHash;
        rest := rest[end + 1..];
      }
      assert events + [] == events;
      return Some(events);
    }

    method RecoverLocked(taskId: string, writes: nat) returns (r: Result<(nat, Hash), Error>)
      modifies this
      ensures FilesOf(dir, taskId) == Recover(decode, taskId, FilesOf(old(dir), taskId), writes).files
      ensures forall id | id != taskId :: FilesOf(dir, id) == FilesOf(old(dir), id)
      ensures var head := Recover(decode, taskId, FilesOf(old(dir), taskId), writes).head;
              r == if head.Some? then Ok(head.value) else Err(BrokenTrace)
    {
      var f := FilesOf(dir, taskId);
      var h := ReadHead(f);
      if h.None? {
        return Err(BrokenTrace);
      }
      if f.data.None? {
        return if h.value == (0, Origin) then Ok(h.value) else Err(BrokenTrace);
      }
      var whole := Whole(f.data.value);
      var torn := whole < |f.data.value|;
      var parsed := ParseEvents(taskId, f.data.value[..whole]);
      if parsed.None? || h.value.0 > |parsed.value| || HashAt(parsed.value, h.value.0) != h.value.1 {
        return Err(BrokenTrace);
      }
      var left := writes;
      if torn {
        if left == 0 {
          return Err(BrokenTrace);
        }
        left := left - 1;
      }
      assert f.data.value[..|f.data.value|] == f.data.value;
      f := f.(data := Some(f.data.value[..whole]));
      dir := dir[taskId := f];
      if |parsed.value| > h.value.0 {
        if left == 0 {
          return Err(BrokenTrace);
        }
        var last := HashAt(parsed.value, |parsed.value|);
        dir := dir[taskId := f.(head := Head(|parsed.value|, last))];
        return Ok((|parsed.value|, last));
      }
      return Ok(h.value);
    }

    method AppendEvent(taskId: string, draft: Draft, cut: Cut) returns (r: Result<Event, Error>)
      modifies this
      ensures !ValidId(taskId) ==> dir == old(dir) && r == Err(InvalidId)
      ensures ValidId(taskId) ==>
                && FilesOf(dir, taskId) == Append(decode, taskId, FilesOf(old(dir), taskId), draft, cut).0
                && (r.Ok? <==> Append(decode, taskId, FilesOf(old(dir), taskId), draft, cut).1.Some?)
                && (r.Ok? ==> Some(r.value) == Append(decode, taskId, FilesOf(old(dir), taskId), draft, cut).1)
                && (r.Ok? ==> Says(r.value, taskId, draft))
      ensures forall id | id != taskId :: FilesOf(dir, id) == FilesOf(old(dir), id)
    {
      if !ValidId(taskId) {
        return Err(InvalidId);
      }
      var recovered := RecoverLocked(taskId, if cut.Recovering? then cut.writes else RECOVERY_WRITES);
      if recovered.Err? || cut.Recovering? || cut.BeforeFirstHead? {
        return Err(Failed);
      }
      var f := FilesOf(dir, taskId);
      if f.head.NoHead? {
        f := f.(head := Head(0, Origin));
        dir := dir[taskId := f];
      }
      if cut.BeforeOpen? {
        return Err(Failed);
      }
      var event := NextEvent(taskId, recovered.value, draft);
      var line := Encode(event) + [Newline];
      if cut.Writing? && cut.symbols < |line| {
        dir := dir[taskId := f.(data := Some(Content(f) + line[..cut.symbols]))];
        return Err(Failed);
      }
      f := f.(data := Some(Content(f) + line));
      dir := dir[taskId := f];
      if cut.Writing? {
        return Err(Failed);
      }
      dir := dir[taskId := f.(head := Head(event.sequence, event.eventHash))];
      return if cut.AfterHead? then Err(Failed) else Ok(event);
    }

    method VerifyIntegrity(taskId: string) returns (ok: bool)
      ensures ok <==> ValidId(taskId) && Verified(decode, taskId, FilesOf(dir, taskId))
    {
      if !ValidId(taskId) {
        return false;
      }
      var f := FilesOf(dir, taskId);
      if f.data.None? || Whole(f.data.value) < |f.data.value| {
        return false;
      }
      var events := ParseEvents(taskId, f.data.value);
      var h := ReadHead(f);
      if events.None? || h.None? {
        return false;
      }
      return h.value == (|events.value|, HashAt(events.value, |events.value|));
    }
  }
}
