/**
  Two searches for a phrase that must stand alone.

  Both look for the next occurrence, test the characters around it, and go on
  behind it when the test fails. One goes on a character further. The other,
  which decides whether a final answer cites its evidence, skips the whole
  occurrence, and so may pass over one that overlaps it.
 */
module Search {
  import opened Wrappers
  import opened Contracts

  type Word = char -> bool

  predicate At(text: string, phrase: string, i: nat) {
    i + |phrase| <= |text| && text[i..i + |phrase|] == phrase
  }

  /** The occurrence is not part of a longer word. */
  predicate Alone(text: string, phrase: string, i: nat, word: Word)
    requires i + |phrase| <= |text|
  {
    && (i == 0 || !word(text[i - 1]))
    && (i + |phrase| == |text| || !word(text[i + |phrase|]))
  }

  predicate StandsAt(text: string, phrase: string, i: nat, word: Word) {
    At(text, phrase, i) && Alone(text, phrase, i, word)
  }

  /** What both searches are asked. */
  ghost predicate Mentions(text: string, phrase: string, word: Word) {
    exists i: nat :: StandsAt(text, phrase, i, word)
  }

  /** strings.Index from an offset. */
  method Index(text: string, phrase: string, offset: nat) returns (r: Option<nat>)
    ensures r.Some? ==> offset <= r.value && At(text, phrase, r.value) && forall j: nat | offset <= j < r.value :: !At(text, phrase, j)
    ensures r.None? ==> forall j: nat | offset <= j :: !At(text, phrase, j)
  {
    var i := offset;
    while i + |phrase| <= |text|
      invariant offset <= i
      invariant forall j: nat | offset <= j < i :: !At(text, phrase, j)
      decreases |text| - i
    {
      if At(text, phrase, i) {
        return Some(i);
      }
      i := i + 1;
    }
    return None;
  }

  /** The loop, as a function of where it has got to: after an occurrence that fails it moves on by jump. */
  predicate Finds(text: string, phrase: string, word: Word, jump: nat, offset: nat)
    requires jump > 0
    decreases |text| + 1 - offset
  {
    if offset + |phrase| > |text| then false
    else if At(text, phrase, offset) then
      Alone(text, phrase, offset, word) || Finds(text, phrase, word, jump, offset + jump)
    else Finds(text, phrase, word, jump, offset + 1)
  }

  method SearchFor(text: string, phrase: string, word: Word, jump: nat) returns (found: bool)
    requires jump > 0
    ensures found == Finds(text, phrase, word, jump, 0)
  {
    var offset := 0;
    while offset <= |text| - |phrase|
      invariant 0 <= offset
      invariant Finds(text, phrase, word, jump, 0) == Finds(text, phrase, word, jump, offset)
      decreases |text| - offset
    {
      var next := Index(text, phrase, offset);
      if next.None? {
        NothingToFind(text, phrase, word, jump, offset);
        return false;
      }
      MovesToNext(text, phrase, word, jump, offset, next.value);
      if Alone(text, phrase, next.value, word) {
        return true;
      }
      offset := next.value + jump;
    }
    return false;
  }

  lemma {:induction false} NothingToFind(text: string, phrase: string, word: Word, jump: nat, offset: nat)
    requires jump > 0 && forall j: nat | offset <= j :: !At(text, phrase, j)
    ensures !Finds(text, phrase, word, jump, offset)
    decreases |text| + 1 - offset
  {
    if offset + |phrase| <= |text| {
      NothingToFind(text, phrase, word, jump, offset + 1);
    }
  }

  lemma {:induction false} MovesToNext(text: string, phrase: string, word: Word, jump: nat, offset: nat, next: nat)
    requires jump > 0 && offset <= next && At(text, phrase, next)
    requires forall j: nat | offset <= j < next :: !At(text, phrase, j)
    ensures Finds(text, phrase, word, jump, offset) == Finds(text, phrase, word, jump, next)
    decreases next - offset
  {
    if offset < next {
      MovesToNext(text, phrase, word, jump, offset + 1, next);
    }
  }

  /** What is found is there. */
  lemma {:induction false} FoundIsMentioned(text: string, phrase: string, word: Word, jump: nat, offset: nat)
    requires jump > 0 && Finds(text, phrase, word, jump, offset)
    ensures Mentions(text, phrase, word)
    decreases |text| + 1 - offset
  {
    if At(text, phrase, offset) && Alone(text, phrase, offset, word) {
      assert StandsAt(text, phrase, offset, word);
    } else {
      FoundIsMentioned(text, phrase, word, jump, if At(text, phrase, offset) then offset + jump else offset + 1);
    }
  }

  // ----- one character further

  lemma {:induction false} StepMissesNothing(text: string, phrase: string, word: Word, offset: nat, i: nat)
    requires offset <= i && StandsAt(text, phrase, i, word)
    ensures Finds(text, phrase, word, 1, offset)
    decreases i - offset
  {
    if offset < i {
      StepMissesNothing(text, phrase, word, offset + 1, i);
    }
  }

  /** containsASCIIPhrase answers the question for every text and every phrase. */
  method ContainsAsciiPhrase(value: string, phrase: string) returns (found: bool)
    ensures found <==> Mentions(value, phrase, IsWord)
  {
    found := SearchFor(value, phrase, IsWord, 1);
    if found {
      FoundIsMentioned(value, phrase, IsWord, 1, 0);
    }
    forall i: nat | StandsAt(value, phrase, i, IsWord)
      ensures found
    {
      StepMissesNothing(value, phrase, IsWord, 0, i);
    }
  }

  predicate IsWord(c: char) {
    'a' <= c <= 'z' || '0' <= c <= '9' || c == '_'
  }

  /** The characters of a word: the lower-case letters, the digits, and the underscore. */
  lemma {:induction false} IsWordIff(c: char)
    ensures IsWord(c) <==> c in {'a', 'b', 'c', 'd', 'e', 'f', 'g', 'h', 'i', 'j', 'k', 'l', 'm', 'n', 'o', 'p', 'q', 'r', 's', 't', 'u', 'v', 'w', 'x', 'y', 'z',
                                 '0', '1', '2', '3', '4', '5', '6', '7', '8', '9', '_'}
  {
  }

  // ----- a whole occurrence further

  /** A reference that fits on its own tail, where the character before the overlap may end a sentence. */
  ghost predicate Overlaps(r: string, word: Word) {
    exists k | 0 < k < |r| :: r[k..] == r[..|r| - k] && !word(r[k - 1])
  }

  /** Skipping a whole occurrence passes over nothing unless the reference overlaps itself. */
  lemma {:induction false} SkipMissesNothing(text: string, r: string, word: Word, offset: nat, i: nat)
    requires r != "" && !Overlaps(r, word)
    requires offset <= i && StandsAt(text, r, i, word)
    ensures Finds(text, r, word, |r|, offset)
    decreases i - offset
  {
    if offset < i {
      if At(text, r, offset) {
        if i < offset + |r| {
          SharedText(text, r, offset, i);
        } else {
          SkipMissesNothing(text, r, word, offset + |r|, i);
        }
      } else {
        SkipMissesNothing(text, r, word, offset + 1, i);
      }
    }
  }

  /** Two occurrences that overlap. */
  lemma {:induction false} SharedText(text: string, r: string, a: nat, b: nat)
    requires a < b < a + |r| && At(text, r, a) && At(text, r, b)
    ensures r[b - a..] == r[..|r| - (b - a)] && text[b - 1] == r[b - a - 1]
  {
    var k := b - a;
    forall j | 0 <= j < |r| - k
      ensures r[k..][j] == r[..|r| - k][j]
    {
      assert text[a..a + |r|][k + j] == text[b..b + |r|][j];
    }
    assert text[a..a + |r|][k - 1] == text[b - 1];
  }

  /** An answer on which skipping fails: a reference character, the reference up to the overlap, the reference. */
  function Trap(r: string, k: nat, c: char): string
    requires k <= |r|
  {
    [c] + r[..k] + r
  }

  lemma {:induction false} SkipFallsIn(r: string, word: Word, k: nat, c: char)
    requires 0 < k < |r| && r[k..] == r[..|r| - k] && !word(r[k - 1]) && word(c)
    ensures Mentions(Trap(r, k, c), r, word) && !Finds(Trap(r, k, c), r, word, |r|, 0)
  {
    var text := Trap(r, k, c);
    TrapHoldsTwo(r, k, c);
    TrapStartsLater(r, word, k, c);
    assert StandsAt(text, r, 1 + k, word);
    assert !Alone(text, r, 1, word);
    assert !Finds(text, r, word, |r|, 1 + |r|);
  }

  /** The reference occurs behind the first character, and again at the end. */
  lemma {:induction false} TrapHoldsTwo(r: string, k: nat, c: char)
    requires 0 < k < |r| && r[k..] == r[..|r| - k]
    ensures At(Trap(r, k, c), r, 1) && At(Trap(r, k, c), r, 1 + k) && Trap(r, k, c)[k] == r[k - 1]
  {
    var text := Trap(r, k, c);
    assert text[1 + k..1 + k + |r|] == r;
    assert r == r[..k] + r[k..];
    forall j | 0 <= j < |r|
      ensures text[1..1 + |r|][j] == r[j]
    {
      assert j >= k ==> r[k..][j - k] == r[..|r| - k][j - k];
    }
  }

  lemma {:induction false} TrapStartsLater(r: string, word: Word, k: nat, c: char)
    requires 0 < k < |r| && r[k..] == r[..|r| - k] && !word(r[k - 1]) && word(c)
    ensures !At(Trap(r, k, c), r, 0)
  {
    var text := Trap(r, k, c);
    if At(text, r, 0) {
      TrapHoldsTwo(r, k, c);
      SharedText(text, r, 0, 1);
      FirstAt(text, r);
      AllTheSame(r, k - 1);
    }
  }

  lemma {:induction false} FirstAt(text: string, r: string)
    requires r != "" && At(text, r, 0)
    ensures text[0] == r[0]
  {
    assert text[0..|r|][0] == text[0];
  }

  lemma {:induction false} AllTheSame(r: string, i: nat)
    requires i < |r| && r[1..] == r[..|r| - 1]
    ensures r[i] == r[0]
  {
    if i > 0 {
      AllTheSame(r, i - 1);
      assert r[1..][i - 1] == r[..|r| - 1][i - 1];
    }
  }

  /**
    containsExactEvidenceReference answers the question for every answer exactly
    when the reference does not overlap itself across a character that is not a
    reference character.
   */
  lemma {:induction false} SkippingIsExactIff(r: string, word: Word, c: char)
    requires r != "" && word(c)
    ensures (forall answer :: Finds(answer, r, word, |r|, 0) <==> Mentions(answer, r, word)) <==> !Overlaps(r, word)
  {
    if Overlaps(r, word) {
      var k :| 0 < k < |r| && r[k..] == r[..|r| - k] && !word(r[k - 1]);
      SkipFallsIn(r, word, k, c);
    } else {
      forall answer
        ensures Finds(answer, r, word, |r|, 0) <==> Mentions(answer, r, word)
      {
        if Finds(answer, r, word, |r|, 0) {
          FoundIsMentioned(answer, r, word, |r|, 0);
        }
        forall i: nat | StandsAt(answer, r, i, word)
          ensures Finds(answer, r, word, |r|, 0)
        {
          SkipMissesNothing(answer, r, word, 0, i);
        }
      }
    }
  }

  ghost predicate AllWord(s: string, word: Word) {
    forall c <- s :: word(c)
  }

  /** For a reference made of reference characters the search is exact. */
  lemma {:induction false} ReferencesAreFound(answer: string, r: string, word: Word)
    requires r != "" && AllWord(r, word)
    ensures Finds(answer, r, word, |r|, 0) <==> Mentions(answer, r, word)
  {
    assert word(r[0]);
    SkippingIsExactIff(r, word, r[0]);
    forall k | 0 < k < |r| && r[k..] == r[..|r| - k]
      ensures word(r[k - 1])
    {
      assert r[k - 1] in r;
    }
  }

  // ----- citing evidence

  /** isEvidenceReferenceRune; the letters and digits outside ASCII are a parameter. */
  predicate IsReference(c: char, wide: Word) {
    wide(c) || 'a' <= c <= 'z' || 'A' <= c <= 'Z' || '0' <= c <= '9' || c in "-._~:/?#[]@!$&'()*+,;=%"
  }

  function Reference(wide: Word): Word {
    (c: char) => IsReference(c, wide)
  }

  function Decimal(n: nat): string {
    if n < 10 then [Digit(n)] else Decimal(n / 10) + [Digit(n % 10)]
  }

  function Digit(n: nat): char
    requires n < 10
  {
    "0123456789"[n]
  }

  /** The reference to one event of a task's trace. */
  function TraceReference(task: string, sequence: nat): string {
    "trace://" + task + "/" + Decimal(sequence)
  }

  /** The number a text of decimal digits stands for. */
  function Number(s: string): nat {
    if s == "" then 0
    else
      var c := s[|s| - 1];
      10 * Number(s[..|s| - 1]) + (if '0' <= c <= '9' then c as int - '0' as int else 0)
  }

  /** Writing a number and reading it back, in digits only and without a zero in front. */
  lemma {:induction false} DecimalReadsBack(n: nat)
    ensures Number(Decimal(n)) == n
    ensures Decimal(n) != "" && (forall c <- Decimal(n) :: '0' <= c <= '9') && (n > 0 ==> Decimal(n)[0] != '0')
  {
    if n >= 10 {
      DecimalReadsBack(n / 10);
      assert Decimal(n)[..|Decimal(n)| - 1] == Decimal(n / 10);
    } else {
      assert Decimal(n)[..0] == "";
    }
  }

  /** A reference names one event of one task. */
  lemma {:induction false} ReferenceNamesOneEvent(task: string, sequence: nat, other: string, number: nat)
    requires '/' !in task && '/' !in other
    ensures TraceReference(task, sequence) == TraceReference(other, number) <==> task == other && sequence == number
  {
    if TraceReference(task, sequence) == TraceReference(other, number) {
      assert TraceReference(task, sequence)[8..] == task + ['/'] + Decimal(sequence);
      assert TraceReference(other, number)[8..] == other + ['/'] + Decimal(number);
      OneCut(task, other, Decimal(sequence), Decimal(number), '/');
      DecimalReadsBack(sequence);
      DecimalReadsBack(number);
    }
  }

  lemma {:induction false} DecimalIsReference(n: nat, wide: Word)
    ensures AllWord(Decimal(n), Reference(wide))
  {
    if n >= 10 {
      DecimalIsReference(n / 10, wide);
    }
  }

  /** The system's own references are found wherever they are cited, and an event number is not taken for a longer one. */
  lemma {:induction false} TraceReferencesAreExact(answer: string, task: string, sequence: nat, wide: Word)
    requires AllWord(task, Reference(wide))
    ensures var r := TraceReference(task, sequence);
            && (Finds(answer, r, Reference(wide), |r|, 0) <==> Mentions(answer, r, Reference(wide)))
            && (AllWord(answer, Reference(wide)) ==> (Mentions(answer, r, Reference(wide)) <==> answer == r))
  {
    var r := TraceReference(task, sequence);
    DecimalIsReference(sequence, wide);
    assert AllWord("trace://", Reference(wide));
    assert AllWord(r, Reference(wide));
    ReferencesAreFound(answer, r, Reference(wide));
    if AllWord(answer, Reference(wide)) {
      WordMentionsItself(answer, r, Reference(wide));
    }
  }

  lemma {:induction false} WordMentionsItself(text: string, r: string, word: Word)
    requires AllWord(text, word)
    ensures Mentions(text, r, word) <==> text == r
  {
    if text == r {
      assert text[0..|r|] == r;
      assert StandsAt(text, r, 0, word);
    }
    assert forall j | 0 <= j < |text| :: word(text[j]);
    forall i: nat | StandsAt(text, r, i, word)
      ensures text == r
    {
      assert text[0..|text|] == text;
    }
  }

  // ----- validateDecisionForRequest

  datatype Choice =
    | UseTool(server: string, tool: string)
    | RequestAction(action: string)
    | Conclude(answer: string)
    | Replan

  datatype Request = Request(tools: seq<(string, string)>, actions: seq<string>, references: seq<string>)

  /** One of the observations is cited. */
  ghost predicate Cites(answer: string, references: seq<string>, word: Word) {
    exists r <- references :: Trim(r) != "" && Mentions(answer, Trim(r), word)
  }

  ghost predicate Sound(references: seq<string>, word: Word) {
    forall r <- references :: !Overlaps(Trim(r), word)
  }

  /** The planner's choice is one of those offered, and a conclusion from observations cites one of them. */
  ghost predicate Answers(choice: Choice, request: Request, word: Word) {
    match choice
    case UseTool(server, tool) => (server, tool) in request.tools
    case RequestAction(action) => action in request.actions
    case Conclude(answer) => request.references == [] || Cites(answer, request.references, word)
    case Replan => true
  }

  method ValidateDecisionForRequest(choice: Choice, request: Request, wide: Word) returns (ok: bool)
    ensures ok ==> Answers(choice, request, Reference(wide))
    ensures Sound(request.references, Reference(wide)) ==> (ok <==> Answers(choice, request, Reference(wide)))
  {
    match choice
    case UseTool(server, tool) =>
      return (server, tool) in request.tools;
    case RequestAction(action) =>
      return action in request.actions;
    case Replan =>
      return true;
    case Conclude(answer) =>
      if request.references == [] {
        return true;
      }
      ghost var word := Reference(wide);
      var i := 0;
      while i < |request.references|
        invariant 0 <= i <= |request.references|
        invariant Sound(request.references, word) ==>
                    forall j | 0 <= j < i :: Trim(request.references[j]) != "" ==> !Mentions(answer, Trim(request.references[j]), word)
      {
        var r := Trim(request.references[i]);
        if r != "" {
          var found := SearchFor(answer, r, Reference(wide), |r|);
          if found {
            FoundIsMentioned(answer, r, word, |r|, 0);
            assert request.references[i] in request.references;
            return true;
          }
          assert word('a');
          SkippingIsExactIff(r, word, 'a');
          assert request.references[i] in request.references;
        }
        i := i + 1;
      }
      return false;
  }
}
