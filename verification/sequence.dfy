/**
 Persisted sequence numbers (internal/agent/sequence.go). Next writes the number to a
 temporary file, renames it over the state file, syncs the directory, and only then hands it out.
 */
module Sequences {
  import opened Prelude
  import SpoolNames

  /** How far one call of Next gets. A crash inside Next is a failed call followed by a restart. */
  datatype Fate = Completes | FailsBeforeRename | FailsAfterRename

  /**
   The number in memory, the number in the state file (0 when there is no file), and
   the number a crash would leave there if the last rename was not yet synced.
   */
  datatype Counter = Counter(value: nat, file: nat, synced: nat)

  /** Next: the counter afterwards and the number returned, if any. */
  function Drawn(c: Counter, fate: Fate): (Counter, Option<nat>) {
    if c.value >= SpoolNames.MAX_UINT64 || fate == FailsBeforeRename then (c, None)
    else if fate == FailsAfterRename then (c.(file := c.value + 1), None)
    else (Counter(c.value + 1, c.value + 1, c.value + 1), Some(c.value + 1))
  }

  /**
   NewSequence after a crash; `undone` says whether an unsynced rename was lost. Starting up syncs no
   directory, so a rename that was kept may still be lost to a later crash.
   */
  function Restarted(c: Counter, undone: bool): Counter {
    var survived := if undone then c.synced else c.file;
    Counter(survived, survived, c.synced)
  }

  // ----- the state file -----

  /** What reading the state file brings. */
  datatype StateFile = Missing | Unreadable | Content(text: string)

  /** White space to strings.TrimSpace. */
  predicate IsSpace(c: char) {
    var n := c as int;
    || 9 <= n <= 13 || n == 32 || n == 0x85 || n == 0xA0 || n == 0x1680
    || 0x2000 <= n <= 0x200A || n == 0x2028 || n == 0x2029 || n == 0x202F || n == 0x205F || n == 0x3000
  }

  function TrimSpace(s: string): string {
    if s != "" && IsSpace(s[0]) then TrimSpace(s[1..])
    else if s != "" && IsSpace(Last(s)) then TrimSpace(Init(s))
    else s
  }

  /** The number the state file stands for; None is an error. */
  function ParseState(state: StateFile): Option<nat> {
    match state
    case Missing => Some(0)
    case Unreadable => None
    case Content(text) => SpoolNames.ParseUint(TrimSpace(text))
  }

  /** What Next writes. */
  function StateText(number: nat): string {
    SpoolNames.Format(number) + "\n"
  }

  /** A restarted agent reads back the number that was written. */
  lemma StateRoundTrip(number: nat)
    requires number <= SpoolNames.MAX_UINT64
    ensures ParseState(Content(StateText(number))) == Some(number)
  {
    var digits := SpoolNames.Format(number);
    SpoolNames.FormatValue(number);
    assert digits[0] in digits && Last(digits) in digits;
    assert SpoolNames.IsDigit(digits[0]) && SpoolNames.IsDigit(Last(digits));
    assert Init(StateText(number)) == digits;
    assert TrimSpace(digits) == digits;
  }

  class Sequence {
    var value: nat
    var file: nat
    var synced: nat

    constructor Holding(stored: nat, durable: nat)
      ensures View() == Counter(stored, stored, durable)
    {
      value, file, synced := stored, stored, durable;
    }

    /**
     NewSequence: null for a state file that cannot be read or does not hold a 64-bit number. `durable` is
     the number a machine crash would leave in the file.
     */
    static method NewSequence(state: StateFile, durable: nat) returns (sequence: Sequence?)
      ensures state == Missing ==> sequence != null && sequence.value == 0
      ensures state == Unreadable ==> sequence == null
      ensures state.Content? ==>
                var number := SpoolNames.ParseUint(TrimSpace(state.text));
                if number.None? then sequence == null else sequence != null && sequence.value == number.value
      ensures sequence == null <==> ParseState(state).None?
      ensures sequence != null ==>
                fresh(sequence) && sequence.value <= SpoolNames.MAX_UINT64
                && var stored := ParseState(state).value; sequence.View() == Counter(stored, stored, durable)
    {
      if state.Unreadable? {
        return null;
      }
      var stored := 0;
      if state.Content? {
        var number := SpoolNames.ParseUint(TrimSpace(state.text));
        if number.None? {
          return null;
        }
        stored := number.value;
      }
      sequence := new Sequence.Holding(stored, durable);
    }

    function View(): Counter
      reads this
    {
      Counter(value, file, synced)
    }

    /** `value + 1` is a uint64 addition: it wraps to 0 after the largest number. */
    method Next(fate: Fate) returns (number: Option<nat>)
      requires value <= SpoolNames.MAX_UINT64
      modifies this
      ensures (View(), number) == Drawn(old(View()), fate)
      ensures value <= SpoolNames.MAX_UINT64
    {
      number := None;
      var next := (value + 1) % (SpoolNames.MAX_UINT64 + 1);
      if next == 0 {
        return;
      }
      if fate == FailsBeforeRename {
        return;
      }
      file := next;
      if fate == FailsAfterRename {
        return;
      }
      synced := file;
      value := next;
      number := Some(next);
    }
  }

  datatype Call = Next(fate: Fate) | Crash(undone: bool)

  function After(run: seq<Call>): Counter {
    if run == [] then Counter(0, 0, 0)
    else
      match Last(run)
      case Next(fate) => Drawn(After(Init(run)), fate).0
      case Crash(undone) => Restarted(After(Init(run)), undone)
  }

  /** Every number handed out, in order. */
  function Returned(run: seq<Call>): seq<nat> {
    if run == [] then []
    else
      match Last(run)
      case Next(fate) =>
        var number := Drawn(After(Init(run)), fate).1;
        Returned(Init(run)) + if number.Some? then [number.value] else []
      case Crash(_) => Returned(Init(run))
  }

  /** The counter, its file and what a crash would leave are each at least every number handed out. */
  ghost predicate Covers(c: Counter, out: seq<nat>) {
    && c.value <= c.file <= SpoolNames.MAX_UINT64 && c.synced <= SpoolNames.MAX_UINT64
    && forall i | 0 <= i < |out| :: 0 < out[i] <= c.value && out[i] <= c.synced
  }

  ghost predicate Increasing(out: seq<nat>) {
    forall i, j | 0 <= i < j < |out| :: out[i] < out[j]
  }

  /**
   Across any calls, errors and crashes, the numbers handed out are nonzero, at most 2^64 - 1 and
   strictly increasing: whatever a crash leaves in the state file is at least each of them.
   */
  lemma {:induction false} NumbersIncrease(run: seq<Call>)
    ensures Covers(After(run), Returned(run)) && Increasing(Returned(run))
  {
    if run != [] {
      NumbersIncrease(Init(run));
      CallKeepsNumbers(After(Init(run)), Returned(Init(run)), Last(run));
    }
  }

  lemma CallKeepsNumbers(c: Counter, out: seq<nat>, call: Call)
    requires Covers(c, out) && Increasing(out)
    ensures call.Crash? ==> Covers(Restarted(c, call.undone), out)
    ensures call.Next? ==>
              var (after, number) := Drawn(c, call.fate);
              var longer := out + if number.Some? then [number.value] else [];
              Covers(after, longer) && Increasing(longer)
  {
  }

  /** A restarted agent never repeats a number handed out before the crash. */
  lemma {:induction false} NextAfterCrashIsNew(run: seq<Call>, undone: bool, number: nat)
    requires Drawn(After(run + [Crash(undone)]), Completes).1 == Some(number)
    ensures forall earlier | earlier in Returned(run) :: earlier < number
  {
    assert Init(run + [Crash(undone)]) == run;
    NumbersIncrease(run);
  }

  /** At 2^64 - 1 every call is an error, and the counter stays. */
  lemma {:induction false} ExhaustedCounterStays(run: seq<Call>, fate: Fate)
    requires After(run).value == SpoolNames.MAX_UINT64
    ensures Drawn(After(run), fate) == (After(run), None)
    ensures After(run).file == SpoolNames.MAX_UINT64
  {
    NumbersIncrease(run);
  }

  /** One agent process makes no gaps: calls that fail consume no number, the others count up by one. */
  lemma {:induction false} FailuresConsumeNothing(run: seq<Call>, calls: seq<Call>)
    requires forall call | call in calls :: call.Next?
    ensures var before, drawn := Returned(run), Returned(run + calls);
            && |before| <= |drawn| && drawn[..|before|] == before
            && (forall i | |before| <= i < |drawn| :: drawn[i] == After(run).value + 1 + (i - |before|))
            && After(run + calls).value == After(run).value + |drawn| - |before|
  {
    if calls == [] {
      assert run + calls == run;
    } else {
      assert Last(calls) in calls && forall call | call in Init(calls) :: call in calls;
      assert Init(run + calls) == run + Init(calls);
      FailuresConsumeNothing(run, Init(calls));
    }
  }
}
