/**
  The values that cross the boundary between the agent and the executor.

  Digests, signatures and quarantine identifiers are free constructors over
  what they cover: two of them are equal exactly when the covered values are.
 */
module Contracts {
  import opened Wrappers
  import opened Paths

  datatype Effect = Read | Write
  datatype RiskLevel = L0 | L1 | L2 | L3
  datatype Outcome = Unset | Allow | Deny | RequireApproval

  datatype TargetRef = TargetRef(typ: string, id: string)

  datatype Risk = Risk(level: RiskLevel, score: int, factors: seq<string>)

  datatype Proposal = Proposal(
    proposalId: string, taskId: string, sessionId: string, tool: string,
    effect: Effect, arguments: string, target: TargetRef, intent: string)

  /** Where a file can be: on an ordinary path, or in the object slot of a quarantine. */
  datatype Location = At(path: Path) | Slot(id: QuarantineId)

  datatype QuarantineId = QuarantineId(taskId: string, nonce: string, snapshot: Snapshot)

  datatype Identity = Identity(inode: nat, size: nat, mtime: int, mode: nat)

  datatype Snapshot = Snapshot(
    typ: string, id: string, location: Option<Location>, identity: Identity,
    serviceName: string, executable: Path)

  datatype Digest = NoDigest | OfProposal(p: Proposal) | OfSnapshot(s: Snapshot) | OfIntent(text: string)

  datatype Signature = Unsigned | Mac(secret: string, body: Envelope)

  datatype Envelope = Envelope(
    schemaVersion: int, traceId: string, taskId: string, sessionId: string,
    proposal: Proposal, proposalDigest: Digest, snapshot: Snapshot, risk: Risk,
    intentDigest: Digest, policyVersion: string, expiresAt: int, nonce: string,
    approvalId: string, signature: Signature)

  datatype Binding = Binding(
    taskId: string, proposalDigest: Digest, snapshotDigest: Digest, intentDigest: Digest,
    policyVersion: string, riskLevel: RiskLevel, tool: string, nonce: string)

  function ToLower(c: char): char {
    if 'A' <= c <= 'Z' then (c as int + 32) as char else c
  }

  function Lower(s: string): string {
    seq(|s|, i requires 0 <= i < |s| => ToLower(s[i]))
  }

  /** unicode.IsSpace. */
  predicate Space(c: char) {
    || '\U{09}' <= c <= '\U{0D}' || c == ' ' || c == '\U{85}' || c == '\U{A0}' || c == '\U{1680}'
    || '\U{2000}' <= c <= '\U{200A}' || c == '\U{2028}' || c == '\U{2029}' || c == '\U{202F}' || c == '\U{205F}' || c == '\U{3000}'
  }

  function Trim(s: string): string {
    if s == [] then []
    else if Space(s[0]) then Trim(s[1..])
    else if Space(s[|s| - 1]) then Trim(s[..|s| - 1])
    else s
  }

  /** contracts.CanonicalTarget: the text two references are compared by. */
  function CanonicalTarget(t: TargetRef): string {
    Lower(Trim(t.typ)) + ":" + Lower(Trim(t.id))
  }

  /** Trimming takes off what is blank at the two ends, and nothing else. */
  lemma {:induction false} TrimIs(s: string) returns (left: string, right: string)
    ensures s == left + Trim(s) + right
    ensures forall c <- left + right :: Space(c)
    ensures Trim(s) != "" ==> !Space(Trim(s)[0]) && !Space(Trim(s)[|Trim(s)| - 1])
    decreases |s|
  {
    left, right := "", "";
    if s != "" && Space(s[0]) {
      left, right := TrimIs(s[1..]);
      left := [s[0]] + left;
    } else if s != "" && Space(s[|s| - 1]) {
      left, right := TrimIs(s[..|s| - 1]);
      right := right + [s[|s| - 1]];
    }
  }

  /** The same text but for blanks at the ends and the case of ASCII letters. */
  predicate SameText(a: string, b: string) {
    |Trim(a)| == |Trim(b)| && forall i | 0 <= i < |Trim(a)| :: SameLetter(Trim(a)[i], Trim(b)[i])
  }

  predicate SameLetter(a: char, b: char) {
    || a == b
    || ('A' <= a <= 'Z' && b as int == a as int + 32)
    || ('A' <= b <= 'Z' && a as int == b as int + 32)
  }

  lemma {:induction false} LowerIsSameText(a: string, b: string)
    ensures Lower(Trim(a)) == Lower(Trim(b)) <==> SameText(a, b)
  {
    if Lower(Trim(a)) == Lower(Trim(b)) {
      assert |Lower(Trim(a))| == |Lower(Trim(b))|;
      forall i | 0 <= i < |Trim(a)|
        ensures SameLetter(Trim(a)[i], Trim(b)[i])
      {
        assert Lower(Trim(a))[i] == Lower(Trim(b))[i];
      }
    }
  }

  /** A text is cut in two at the first separator in one way. */
  lemma {:induction false} OneCut(a: string, b: string, x: string, y: string, mark: char)
    requires mark !in a && mark !in b && a + [mark] + x == b + [mark] + y
    ensures a == b && x == y
  {
    var s, t := a + [mark] + x, b + [mark] + y;
    assert (a != "" ==> a[0] in a) && (b != "" ==> b[0] in b);
    assert s[0] == (if a == "" then mark else a[0]) && t[0] == (if b == "" then mark else b[0]);
    if a != "" && b != "" {
      assert s[1..] == a[1..] + [mark] + x && t[1..] == b[1..] + [mark] + y;
      OneCut(a[1..], b[1..], x, y, mark);
      assert a == [a[0]] + a[1..] && b == [b[0]] + b[1..];
    } else {
      assert s[1..] == x && t[1..] == y;
    }
  }

  lemma {:induction false} LowerKeepsColons(s: string)
    requires ':' !in s
    ensures ':' !in Lower(Trim(s))
  {
    var left, right := TrimIs(s);
    forall i | 0 <= i < |Trim(s)|
      ensures Lower(Trim(s))[i] != ':'
    {
      assert Trim(s)[i] == s[|left| + i];
      assert s[|left| + i] in s;
    }
  }

  /** Targets agree exactly when type and identifier do, but for case and blanks at the ends. */
  lemma {:induction false} TargetsAgreeIff(a: TargetRef, b: TargetRef)
    requires ':' !in a.typ && ':' !in b.typ
    ensures CanonicalTarget(a) == CanonicalTarget(b) <==> SameText(a.typ, b.typ) && SameText(a.id, b.id)
  {
    LowerIsSameText(a.typ, b.typ);
    LowerIsSameText(a.id, b.id);
    LowerKeepsColons(a.typ);
    LowerKeepsColons(b.typ);
    if CanonicalTarget(a) == CanonicalTarget(b) {
      OneCut(Lower(Trim(a.typ)), Lower(Trim(b.typ)), Lower(Trim(a.id)), Lower(Trim(b.id)), ':');
    }
  }

  const MIN_SECRET_BYTES := 32

  /** ActionEnvelope.Sign: the MAC covers every field but the signature itself. */
  function Sign(e: Envelope, secret: string): Option<Envelope> {
    if |secret| < MIN_SECRET_BYTES then None
    else Some(e.(signature := Mac(secret, e.(signature := Unsigned))))
  }

  predicate VerifySignature(e: Envelope, secret: string) {
    |secret| >= MIN_SECRET_BYTES && e.signature == Mac(secret, e.(signature := Unsigned))
  }

  /** Only the signer's envelope verifies: any change to any field breaks the signature. */
  lemma {:induction false} SignedOrRefused(e: Envelope, other: Envelope, secret: string)
    requires Sign(e, secret).Some?
    requires other.signature == Sign(e, secret).value.signature
    ensures VerifySignature(other, secret) <==> other == Sign(e, secret).value
    ensures Sign(e, secret).value.(signature := e.signature) == e && |secret| >= 32
  {
    assert other == other.(signature := Unsigned).(signature := other.signature);
  }
}
