/** One-shot breakpoints: which lines of a source file a program ran. A breakpoint is the byte 0xCC in place of
    an instruction's first; the one that is hit is put back, and its lines are noted. */
module LineCoverage {
  import opened Results
  import opened Seqs

  /** A byte, as the low bits of a word. */
  type Octet = b: bv64 | b & 0xFF == b

  const TRAP: Octet := 0xCC
  const SIGTRAP := 5

  type Addr = nat

  /** A program's memory, a word of eight bytes at each multiple of eight that is mapped. */
  type Words = map<Addr, bv64>

  /** `addr & ~7`. */
  function Base(addr: Addr): Addr {
    addr - addr % 8
  }

  predicate Mapped(words: Words, addr: Addr) {
    Base(addr) in words
  }

  /** Eight bits for each place in a word. */
  function Shift(place: nat): bv64
    requires place < 8
  {
    if place == 0 then 0 else if place == 1 then 8 else if place == 2 then 16 else if place == 3 then 24
    else if place == 4 then 32 else if place == 5 then 40 else if place == 6 then 48 else 56
  }

  /** The shift of a place. */
  predicate Whole(shift: bv64) {
    shift & 7 == 0 && shift <= 56
  }

  lemma ShiftFits(i: nat, j: nat)
    requires i < 8 && j < 8
    ensures Whole(Shift(i)) && Whole(Shift(j)) && (Shift(i) == Shift(j) ==> i == j)
  {
  }

  /** The byte of a word at `shift`: `(word >> shift) & 0xFF`. */
  function Lane(word: bv64, shift: bv64): Octet
    requires shift <= 56
  {
    LaneFits(word, shift);
    (word >> shift) & 0xFF
  }

  lemma LaneFits(word: bv64, shift: bv64)
    requires shift <= 56
    ensures ((word >> shift) & 0xFF) & 0xFF == (word >> shift) & 0xFF
  {
  }

  /** `(word & ~(0xFF << shift)) | (byte << shift)`. */
  function WithLane(word: bv64, shift: bv64, byte: Octet): bv64
    requires shift <= 56
  {
    (word & !(0xFF << shift)) | (byte << shift)
  }

  // A case for each place that is set.

  lemma LaneSet(word: bv64, shift: bv64, byte: Octet)
    requires Whole(shift)
    ensures Lane(WithLane(word, shift, byte), shift) == byte
  {
    if shift == 0 {
    } else if shift == 8 {
    } else if shift == 16 {
    } else if shift == 24 {
    } else if shift == 32 {
    } else if shift == 40 {
    } else if shift == 48 {
    } else if shift == 56 {
    }
  }

  lemma LaneKept(word: bv64, shift: bv64, byte: Octet, other: bv64)
    requires Whole(shift) && Whole(other) && shift != other
    ensures Lane(WithLane(word, shift, byte), other) == Lane(word, other)
  {
    if shift == 0 {
    } else if shift == 8 {
    } else if shift == 16 {
    } else if shift == 24 {
    } else if shift == 32 {
    } else if shift == 40 {
    } else if shift == 48 {
    } else if shift == 56 {
    }
  }

  function ByteAt(words: Words, addr: Addr): Octet
    requires Mapped(words, addr)
  {
    ShiftFits(addr % 8, 0);
    Lane(words[Base(addr)], Shift(addr % 8))
  }

  function SetByte(words: Words, addr: Addr, byte: Octet): Words
    requires Mapped(words, addr)
  {
    ShiftFits(addr % 8, 0);
    words[Base(addr) := WithLane(words[Base(addr)], Shift(addr % 8), byte)]
  }

  /** A byte's place in its word, the lowest address the lowest bits: eight bits for each place. */
  lemma ByteInWord(words: Words, addr: Addr)
    requires addr / 8 * 8 in words
    ensures Mapped(words, addr) && Shift(addr % 8) as int == 8 * (addr % 8) && Shift(addr % 8) <= 56
    ensures ByteAt(words, addr) == (words[addr / 8 * 8] >> Shift(addr % 8)) & 0xFF
  {
    assert Base(addr) == addr / 8 * 8;
    ShiftFits(addr % 8, 0);
    ShiftIs(addr % 8);
    hide Shift;
  }

  lemma ShiftIs(place: nat)
    requires place < 8
    ensures Shift(place) as int == 8 * place
  {
  }

  lemma SamePlace(a: Addr, b: Addr)
    requires Base(a) == Base(b) && a % 8 == b % 8
    ensures a == b
  {
  }

  /** Writing one byte through its word changes that byte and no other, whatever its neighbours hold. */
  lemma SetByteExact(words: Words, addr: Addr, byte: Octet, a: Addr)
    requires Mapped(words, addr)
    ensures SetByte(words, addr, byte).Keys == words.Keys
    ensures Mapped(words, a) ==> ByteAt(SetByte(words, addr, byte), a) == if a == addr then byte else ByteAt(words, a)
  {
    hide Lane, WithLane, Shift;
    ShiftFits(addr % 8, a % 8);
    var word := words[Base(addr)];
    LaneSet(word, Shift(addr % 8), byte);
    if a % 8 != addr % 8 {
      LaneKept(word, Shift(addr % 8), byte, Shift(a % 8));
    } else if Base(a) == Base(addr) {
      SamePlace(a, addr);
    }
  }

  /** What `waitpid` reports: the program's end, or a stop with a signal at an instruction pointer. */
  datatype Stop = Exited(status: nat) | Killed(signal: nat) | Stopped(signal: nat, rip: Addr)

  /** How the program goes on: with a signal passed to it, and perhaps its instruction pointer set. */
  datatype Resume = Resume(signal: nat, rip: Option<Addr>)

  /** The exit status, or the signal that ended the program, negated. */
  function Outcome(s: Stop): int
    requires !s.Stopped?
  {
    if s.Exited? then s.status else -(s.signal as int)
  }

  type Table = map<Addr, set<nat>>

  /** The tracer and the program's memory. */
  datatype Trace = Trace(words: Words, saved: map<Addr, Octet>, hit: set<nat>, resumed: seq<Resume>)

  /** A stop at a breakpoint that is still there. */
  predicate AtBreakpoint(saved: map<Addr, Octet>, s: Stop) {
    s.Stopped? && s.signal == SIGTRAP && 1 <= s.rip && s.rip - 1 in saved
  }

  /** What a stop does. */
  function Step(table: Table, t: Trace, s: Stop): Trace
    requires s.Stopped?
    requires forall a :: a in t.saved ==> a in table && Mapped(t.words, a)
  {
    if !AtBreakpoint(t.saved, s) then t.(resumed := t.resumed + [Resume(s.signal, None)])
    else
      var at: Addr := s.rip - 1;
      Trace(SetByte(t.words, at, t.saved[at]), t.saved - {at}, t.hit + table[at], t.resumed + [Resume(0, Some(at))])
  }

  // What holds at every step.

  /** Memory is the original but for 0xCC at just the addresses still saved, and what is saved is the original. */
  ghost predicate Planted(original: Words, words: Words, saved: map<Addr, Octet>) {
    && words.Keys == original.Keys
    && (forall a :: a in saved ==> Mapped(original, a) && saved[a] == ByteAt(original, a))
    && (forall a: Addr :: Mapped(original, a) ==> ByteAt(words, a) == if a in saved then 0xCC else ByteAt(original, a))
  }

  /** The program stopped at the breakpoint that was planted at `a`. */
  predicate StopsAt(s: Stop, a: Addr) {
    s == Stopped(5, a + 1)
  }

  ghost predicate Reached(stops: seq<Stop>, k: nat, a: Addr)
    requires k <= |stops|
  {
    exists j :: 0 <= j < k && StopsAt(stops[j], a)
  }

  /** How the program must go on after its `j`th stop: from the instruction itself and with no signal, the first
      time at a breakpoint of the table; otherwise with the signal it got. */
  ghost function Continues(table: Table, stops: seq<Stop>, j: nat): Resume
    requires j < |stops| && stops[j].Stopped?
  {
    var s := stops[j];
    if s.signal == 5 && 1 <= s.rip && s.rip - 1 in table && !Reached(stops, j, s.rip - 1)
    then Resume(0, Some(s.rip - 1))
    else Resume(s.signal, None)
  }

  /** After `k` stops: the breakpoints left are just the ones not reached, `hit` is just the lines of those
      reached, and the program went on as it must each time. */
  ghost predicate Exact(original: Words, table: Table, stops: seq<Stop>, k: nat, t: Trace)
    requires k <= |stops| && forall j :: 0 <= j < k ==> stops[j].Stopped?
  {
    && Planted(original, t.words, t.saved)
    && (forall a :: a in t.saved <==> a in table && !Reached(stops, k, a))
    && (forall line :: line in t.hit <==> exists a :: a in table && Reached(stops, k, a) && line in table[a])
    && |t.resumed| == k && (forall j :: 0 <= j < k ==> t.resumed[j] == Continues(table, stops, j))
  }

  lemma PlantedPut(original: Words, words: Words, saved: map<Addr, Octet>, at: Addr)
    requires Planted(original, words, saved) && at in saved
    ensures Planted(original, SetByte(words, at, saved[at]), saved - {at})
  {
    hide SetByte, ByteAt;
    var after := SetByte(words, at, saved[at]);
    SetByteExact(words, at, saved[at], at);
    forall a: Addr | Mapped(original, a)
      ensures ByteAt(after, a) == if a in saved - {at} then 0xCC else ByteAt(original, a)
    {
      SetByteExact(words, at, saved[at], a);
    }
  }

  lemma PlantedMore(original: Words, words: Words, saved: map<Addr, Octet>, at: Addr)
    requires Planted(original, words, saved) && at !in saved && Mapped(original, at)
    ensures Mapped(words, at) && Planted(original, SetByte(words, at, TRAP), saved[at := ByteAt(words, at)])
  {
    hide SetByte, ByteAt;
    var after := SetByte(words, at, TRAP);
    SetByteExact(words, at, TRAP, at);
    forall a: Addr | Mapped(original, a)
      ensures ByteAt(after, a) == if a in saved[at := ByteAt(words, at)] then 0xCC else ByteAt(original, a)
    {
      SetByteExact(words, at, TRAP, a);
    }
  }

  lemma ReachedNext(stops: seq<Stop>, k: nat, a: Addr)
    requires k < |stops|
    ensures Reached(stops, k + 1, a) <==> Reached(stops, k, a) || StopsAt(stops[k], a)
  {
    if Reached(stops, k, a) {
      var j :| 0 <= j < k && StopsAt(stops[j], a);
      assert StopsAt(stops[j], a) && j < k + 1;
    }
  }

  /** Every stop keeps all of it. */
  lemma StepExact(original: Words, table: Table, stops: seq<Stop>, k: nat, t: Trace)
    requires k < |stops| && (forall j :: 0 <= j <= k ==> stops[j].Stopped?) && Exact(original, table, stops, k, t)
    ensures Exact(original, table, stops, k + 1, Step(table, t, stops[k]))
  {
    hide SetByte, ByteAt, Planted, Reached;
    var s := stops[k];
    assert forall a :: a in t.saved ==> Mapped(t.words, a) by {
      PlantedMapped(original, t.words, t.saved);
    }
    forall a ensures Reached(stops, k + 1, a) <==> Reached(stops, k, a) || StopsAt(s, a) {
      ReachedNext(stops, k, a);
    }
    var t' := Step(table, t, s);
    if AtBreakpoint(t.saved, s) {
      var at: Addr := s.rip - 1;
      assert StopsAt(s, at);
      PlantedPut(original, t.words, t.saved, at);
      assert forall line :: line in t'.hit <==> line in t.hit || line in table[at];
    } else {
      assert forall a :: StopsAt(s, a) && a in table ==> Reached(stops, k, a);
    }
    forall j | 0 <= j < k + 1 ensures t'.resumed[j] == Continues(table, stops, j) {
      if j == k && s.signal == SIGTRAP && 1 <= s.rip {
        assert StopsAt(s, s.rip - 1);
      }
    }
  }

  lemma PlantedMapped(original: Words, words: Words, saved: map<Addr, Octet>)
    requires Planted(original, words, saved)
    ensures forall a :: a in saved ==> Mapped(words, a)
  {
  }

  /** An address that `ptrace` cannot reach. */
  datatype Fault = Unreachable(addr: Addr)

  class Tracer {
    var words: Words
    var saved: map<Addr, Octet>
    var hit: set<nat>
    var resumed: seq<Resume>

    /** The program stopped at its start, with `words` its memory. */
    constructor (words: Words)
      ensures State() == Trace(words, map[], {}, [])
    {
      this.words, saved, hit, resumed := words, map[], {}, [];
    }

    ghost function State(): Trace
      reads this
    {
      Trace(words, saved, hit, resumed)
    }

    /** `poke_byte`: writes one byte, and answers the one that was there. */
    method PokeByte(addr: Addr, byte: Octet) returns (r: Result<Octet, Fault>)
      modifies this`words
      ensures !Mapped(old(words), addr) ==> r == Err(Unreachable(addr)) && words == old(words)
      ensures Mapped(old(words), addr) ==> r == Ok(ByteAt(old(words), addr)) && words == SetByte(old(words), addr, byte)
    {
      hide Shift, Lane, WithLane;
      var base := addr - addr % 8;
      if base !in words {
        return Err(Unreachable(addr));
      }
      ShiftFits(addr % 8, 0);
      var word, shift := words[base], Shift(addr - base);
      var was := Lane(word, shift);
      word := WithLane(word, shift, byte);
      words := words[base := word];
      return Ok(was);
    }

    /** Plants a breakpoint at every address of the table. */
    method Plant(order: seq<Addr>) returns (r: Option<Fault>)
      requires saved == map[] && NoDup(order)
      modifies this`words, this`saved
      ensures r.None? <==> forall i :: 0 <= i < |order| ==> Mapped(old(words), order[i])
      ensures r.None? ==> Planted(old(words), words, saved) && saved.Keys == Elems(order)
    {
      hide SetByte, ByteAt;
      ghost var original := words;
      for i := 0 to |order|
        invariant Planted(original, words, saved) && saved.Keys == Elems(order[..i])
        invariant forall j :: 0 <= j < i ==> Mapped(original, order[j])
      {
        assert order[..i + 1] == order[..i] + [order[i]];
        assert order[i] !in order[..i];
        if Mapped(original, order[i]) {
          PlantedMore(original, words, saved, order[i]);
        }
        var was := PokeByte(order[i], TRAP);
        if was.Err? {
          return Some(was.error);
        }
        saved := saved[order[i] := was.value];
      }
      assert order[..|order|] == order;
      return None;
    }

    /** A stop, and how the program goes on after it. */
    method OnStop(table: Table, s: Stop)
      requires s.Stopped? && forall a :: a in saved ==> a in table && Mapped(words, a)
      modifies this
      ensures State() == Step(table, old(State()), s)
    {
      hide SetByte, ByteAt;
      var signal, rip := s.signal, None;
      if signal == SIGTRAP {
        if 1 <= s.rip && s.rip - 1 in saved {
          var at: Addr := s.rip - 1;
          hit := hit + table[at];
          var byte := saved[at];
          saved := saved - {at};
          var was := PokeByte(at, byte);
          rip := Some(at);
          signal := 0;
        }
      }
      resumed := resumed + [Resume(signal, rip)];
    }

    /** `run`, over what `waitpid` reports until the program ends. */
    method Run(table: Table, order: seq<Addr>, stops: seq<Stop>) returns (r: Result<(set<nat>, int), Fault>)
      requires State() == Trace(words, map[], {}, []) && NoDup(order) && Elems(order) == table.Keys
      requires stops != [] && !stops[|stops| - 1].Stopped?
      requires forall j :: 0 <= j < |stops| - 1 ==> stops[j].Stopped?
      modifies this
      ensures r.Ok? <==> forall a :: a in table ==> Mapped(old(words), a)
      ensures r.Ok? ==>
        && Exact(old(words), table, stops, |stops| - 1, State())
        && r.value.0 == hit
        && r.value.1 == match stops[|stops| - 1] case Exited(status) => status case Killed(signal) => -(signal as int)
    {
      hide Planted, ByteAt, SetByte, Mapped;
      ghost var original := words;
      var fault := Plant(order);
      assert forall a :: a in table <==> a in Elems(order);
      assert (forall i :: 0 <= i < |order| ==> Mapped(original, order[i]))
          <==> forall a :: a in Elems(order) ==> Mapped(original, a);
      if fault.Some? {
        return Err(fault.value);
      }
      for k := 0 to |stops|
        invariant k <= |stops| - 1
        invariant Exact(original, table, stops, k, State())
      {
        match stops[k]
        case Exited(_) => return Ok((hit, Outcome(stops[k])));
        case Killed(_) => return Ok((hit, Outcome(stops[k])));
        case Stopped(_, _) =>
          StepExact(original, table, stops, k, State());
          PlantedMapped(original, words, saved);
          OnStop(table, stops[k]);
      }
      assert false;
    }
  }
}
