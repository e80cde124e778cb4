/** What the long-name state machine accepts, stated over the entries themselves, and the layout it reads back. */
module LongNames {
  import opened Bytes
  import opened DosTimes
  import opened Report
  import opened Seqs
  import opened Geometries
  import opened Directories

  /** The `m` entries before `i` are parts in falling order, the first and no other marked, of one checksum. */
  ghost predicate Falling(ss: seq<Slot>, i: nat, m: nat) {
    && 1 <= m <= i <= |ss|
    && (forall j :: i - m <= j < i ==> ss[j].Part? && (ss[j].marked <==> j == i - m))
    && (forall j :: i - m <= j < i ==> ss[j].seqNo as int == ss[i - m].seqNo - (j - (i - m)))
    && (forall j :: i - m <= j < i ==> ss[j].sum == ss[i - m].sum)
  }

  /** The length of the run that the machine holds, 0 for none. */
  function RunLength(ss: seq<Slot>, i: nat): (m: nat)
    requires i <= |ss|
    ensures m <= i
  {
    if i == 0 || ss[i - 1].NoPart? then 0
    else if ss[i - 1].marked then 1
    else if Continues(RunAt(ss, i - 1), ss[i - 1]) then RunLength(ss, i - 1) + 1
    else 0
  }

  /** `r` holds just the parts of the `m` entries before `i`. */
  ghost predicate Holding(r: Run, ss: seq<Slot>, i: nat, m: nat) {
    && Falling(ss, i, m) && r.Run? && |r.parts| == m
    && r.want == ss[i - m].seqNo && r.sum == ss[i - m].sum
    && (forall k :: k in r.parts ==> r.want - m < k <= r.want)
    && (forall j :: i - m <= j < i ==> ss[j].seqNo in r.parts && r.parts[ss[j].seqNo] == ss[j].chars)
  }

  /** The machine holds the parts of the entries before it, if these are a run. */
  lemma {:induction false} RunHolds(ss: seq<Slot>, i: nat)
    requires i <= |ss|
    ensures RunLength(ss, i) == 0 ==> RunAt(ss, i).NoRun?
    ensures RunLength(ss, i) > 0 ==> Holding(RunAt(ss, i), ss, i, RunLength(ss, i))
  {
    if i == 0 {
    } else {
      RunHolds(ss, i - 1);
      var s, before := ss[i - 1], RunAt(ss, i - 1);
      if s.Part? {
        if s.marked {
          assert |map[s.seqNo := s.chars]| == 1;
        } else if Continues(before, s) {
          RunGrows(ss, i, RunLength(ss, i - 1), before);
        }
      }
    }
  }

  lemma RunGrows(ss: seq<Slot>, i: nat, m: nat, before: Run)
    requires 1 <= i <= |ss| && Holding(before, ss, i - 1, m)
    requires ss[i - 1].Part? && !ss[i - 1].marked && Continues(before, ss[i - 1])
    ensures Holding(NextRun(before, ss[i - 1]), ss, i, m + 1)
  {
    var s := ss[i - 1];
    var after := NextRun(before, s);
    assert s.seqNo !in before.parts;
    assert after.parts.Keys == before.parts.Keys + {s.seqNo};
    assert |after.parts| == |after.parts.Keys|;
    assert |before.parts| == |before.parts.Keys|;
  }

  /** No other run ends at `i`: it begins at the last marked part. */
  lemma {:induction false} FallingIsHeld(ss: seq<Slot>, i: nat, m: nat)
    requires Falling(ss, i, m)
    ensures m == RunLength(ss, i)
  {
    RunHolds(ss, i - 1);
    if m == 1 {
    } else {
      assert Falling(ss, i - 1, m - 1);
      FallingIsHeld(ss, i - 1, m - 1);
      assert Continues(RunAt(ss, i - 1), ss[i - 1]);
    }
  }

  // The long name of a short entry.

  /** The entries directly before `i` are the parts `n` to 1, in order, the first marked, of one checksum. */
  ghost predicate LongRun(ss: seq<Slot>, i: nat, n: nat) {
    Falling(ss, i, n) && ss[i - n].seqNo == n
  }

  /** The text of the `n` entries before `i`, the nearest first. */
  function TextBefore(ss: seq<Slot>, i: nat, n: nat): (r: seq<byte>)
    requires n <= i <= |ss|
    requires forall j :: i - n <= j < i ==> ss[j].Part?
    ensures |r| == 26 * n && |r| % 2 == 0
  {
    if n == 0 then [] else ss[i - 1].chars + TextBefore(ss, i - 1, n - 1)
  }

  lemma {:induction false} JoinedIsText(r: Run, ss: seq<Slot>, i: nat, n: nat, k: nat)
    requires LongRun(ss, i, n) && Holding(r, ss, i, n) && 1 <= k <= n + 1
    ensures forall j :: k <= j <= n ==> j in r.parts
    ensures Joined(r.parts, k, n) == TextBefore(ss, i - (k - 1), n - (k - 1))
    decreases n + 1 - k
  {
    if k == n + 1 {
    } else {
      JoinedIsText(r, ss, i, n, k + 1);
      assert ss[i - k].seqNo == k;
    }
  }

  lemma CompleteIsLongRun(ss: seq<Slot>, i: nat, m: nat)
    requires i <= |ss| && Holding(RunAt(ss, i), ss, i, m)
    ensures Complete(RunAt(ss, i)) <==> LongRun(ss, i, m)
  {
    var r := RunAt(ss, i);
    if LongRun(ss, i, m) {
      JoinedIsText(r, ss, i, m, 1);
    }
  }

  lemma LongNameStored(ss: seq<Slot>, i: nat, n: nat, e: Raw, dir: Name)
    requires i <= |ss| && LongRun(ss, i, n) && ss[i - n].sum == Checksum(0, e[..11])
    ensures StoredName(RunAt(ss, i), e) == UntilNul(Units(TextBefore(ss, i, n)))
    ensures NameFlaws(RunAt(ss, i), e, dir) == []
  {
    RunHolds(ss, i);
    FallingIsHeld(ss, i, n);
    CompleteIsLongRun(ss, i, n);
    JoinedIsText(RunAt(ss, i), ss, i, n, 1);
  }

  /** The state machine is exact. A short entry is stored under a long name if and only if the entries
      directly before it are that name's parts, all carrying the short entry's checksum. Otherwise it is
      stored under its 8.3 name, and reported if and only if a marked part leads parts directly before it. */
  lemma LongNameExact(ss: seq<Slot>, i: nat, e: Raw, dir: Name)
    requires i <= |ss|
    ensures forall n :: LongRun(ss, i, n) && ss[i - n].sum == Checksum(0, e[..11]) ==>
      && StoredName(RunAt(ss, i), e) == UntilNul(Units(TextBefore(ss, i, n)))
      && NameFlaws(RunAt(ss, i), e, dir) == []
    ensures (forall n :: LongRun(ss, i, n) ==> ss[i - n].sum != Checksum(0, e[..11])) ==>
      && StoredName(RunAt(ss, i), e) == ShortName(e[..11], e[12])
      && (NameFlaws(RunAt(ss, i), e, dir) == [] <==> forall m :: !Falling(ss, i, m))
  {
    forall n | LongRun(ss, i, n) && ss[i - n].sum == Checksum(0, e[..11])
      ensures StoredName(RunAt(ss, i), e) == UntilNul(Units(TextBefore(ss, i, n)))
      ensures NameFlaws(RunAt(ss, i), e, dir) == []
    {
      LongNameStored(ss, i, n, e, dir);
    }
    RunHolds(ss, i);
    var r, m := RunAt(ss, i), RunLength(ss, i);
    forall n | Falling(ss, i, n) ensures n == m {
      FallingIsHeld(ss, i, n);
    }
    if m > 0 {
      CompleteIsLongRun(ss, i, m);
    }
  }

  // The other reports.

  /** A part is reported as out of order if and only if no run of parts, the first marked, ends with it. */
  lemma PartExact(kind: Kind, es: seq<Raw>, i: nat, dir: Name)
    requires i < |es| && View(es[i]).Part?
    ensures EventsOf(kind, RunAt(Views(es), i), es[i], dir)
         == if EndsRun(Views(es), i + 1) then [] else [Flaw(PartOutOfOrder(dir))]
  {
    var ss := Views(es);
    PartEvents(kind, RunAt(ss, i), es[i], dir);
    RunGoesOn(ss, i);
    RunEnds(ss, i + 1);
    hide View, EndsRun, EventsOf, Continues, RunLength, RunAt;
  }

  lemma PartEvents(kind: Kind, r: Run, e: Raw, dir: Name)
    requires View(e).Part?
    ensures EventsOf(kind, r, e, dir)
         == if View(e).marked || Continues(r, View(e)) then [] else [Flaw(PartOutOfOrder(dir))]
  {
    hide StoredName, NameFlaws;
  }

  lemma RunGoesOn(ss: seq<Slot>, i: nat)
    requires i < |ss| && ss[i].Part?
    ensures RunLength(ss, i + 1) > 0 <==> ss[i].marked || Continues(RunAt(ss, i), ss[i])
  {
    hide RunAt, Continues;
  }

  /** Some run of parts ends directly before `i`. */
  ghost predicate EndsRun(ss: seq<Slot>, i: nat) {
    exists m :: Falling(ss, i, m)
  }

  lemma RunEnds(ss: seq<Slot>, i: nat)
    requires i <= |ss|
    ensures EndsRun(ss, i) <==> RunLength(ss, i) > 0
  {
    RunHolds(ss, i);
    if RunLength(ss, i) > 0 {
      assert Falling(ss, i, RunLength(ss, i));
    }
    forall m | Falling(ss, i, m) ensures RunLength(ss, i) > 0 {
      FallingIsHeld(ss, i, m);
    }
  }

  /** What is reported of a long name. */
  predicate LongNameFlaw(event: Event) {
    event.Flaw? && (event.problem.PartOutOfOrder? || event.problem.PartsMissing? || event.problem.ChecksumWrong?)
  }

  /** The entry goes on with the run before it, or has it for its long name. */
  ghost predicate Uses(es: seq<Raw>, i: nat, m: nat)
    requires m <= i < |es|
  {
    || Falling(Views(es), i + 1, m + 1)
    || (IsShort(es[i]) && LongRun(Views(es), i, m) && Views(es)[i - m].sum == Checksum(0, es[i][..11]))
  }

  /** A run that the next entry makes no use of is reported if and only if that entry is a short one, or a part
      that is not marked. A marked part, a deleted entry or a label drops it in silence. */
  lemma AbandonedExact(kind: Kind, es: seq<Raw>, i: nat, m: nat, dir: Name)
    requires i < |es| && Falling(Views(es), i, m) && m <= i && !Uses(es, i, m)
    ensures var events := EventsOf(kind, RunAt(Views(es), i), es[i], dir);
      if IsShort(es[i]) || (View(es[i]).Part? && !View(es[i]).marked)
      then events != [] && LongNameFlaw(events[0])
      else events == []
  {
    var ss, e := Views(es), es[i];
    RunHolds(ss, i);
    FallingIsHeld(ss, i, m);
    if IsShort(e) {
      ShortAbandoned(ss, i, m, e, dir);
    } else if View(e).Part? && !View(e).marked {
      NotContinued(es, i, m);
    }
  }

  lemma NotContinued(es: seq<Raw>, i: nat, m: nat)
    requires i < |es| && View(es[i]).Part? && !View(es[i]).marked && Falling(Views(es), i, m)
    requires !Falling(Views(es), i + 1, m + 1)
    ensures !Continues(RunAt(Views(es), i), View(es[i]))
  {
    hide View, RunAt, Falling, Holding, Continues, RunLength;
    var ss := Views(es);
    FallingIsHeld(ss, i, m);
    if Continues(RunAt(ss, i), ss[i]) {
      LengthGrows(ss, i);
      RunHolds(ss, i + 1);
      HoldingFalls(RunAt(ss, i + 1), ss, i + 1, m + 1);
    }
  }

  lemma LengthGrows(ss: seq<Slot>, i: nat)
    requires i < |ss| && ss[i].Part? && !ss[i].marked && Continues(RunAt(ss, i), ss[i])
    ensures RunLength(ss, i + 1) == RunLength(ss, i) + 1
  {
    hide RunAt, Continues;
  }

  lemma HoldingFalls(r: Run, ss: seq<Slot>, i: nat, m: nat)
    requires Holding(r, ss, i, m)
    ensures Falling(ss, i, m)
  {
  }

  lemma ShortAbandoned(ss: seq<Slot>, i: nat, m: nat, e: Raw, dir: Name)
    requires i <= |ss| && Falling(ss, i, m) && !(LongRun(ss, i, m) && ss[i - m].sum == Checksum(0, e[..11]))
    ensures NameFlaws(RunAt(ss, i), e, dir) != [] && LongNameFlaw(NameFlaws(RunAt(ss, i), e, dir)[0])
  {
    forall n | LongRun(ss, i, n) ensures ss[i - n].sum != Checksum(0, e[..11]) {
      FallingIsHeld(ss, i, n);
      FallingIsHeld(ss, i, m);
    }
    LongNameExact(ss, i, e, dir);
  }

  function OneByte(first: byte, attr: byte): (e: Raw)
    ensures e[0] == first && e[11] == attr
  {
    [first] + seq<byte>(10, _ => 0) + [attr] + seq<byte>(20, _ => 0)
  }

  /** A long name's part, and then a deleted entry, another marked part, or nothing: none is reported. */
  lemma DroppedSilently(kind: Kind, dir: Name)
    ensures var part, deleted := OneByte(0x41, ATTR_LONG), OneByte(DELETED, 0x20);
      && Falling(Views([part]), 1, 1)
      && Decode(kind, [part], 1, dir) == []
      && Decode(kind, [part, deleted], 2, dir) == []
      && Decode(kind, [part, part], 2, dir) == []
  {
    var part, deleted := OneByte(0x41, ATTR_LONG), OneByte(DELETED, 0x20);
    hide OneByte, Chars;
    assert View(part).Part? && View(part).marked && View(deleted).NoPart? && !IsShort(deleted);
    hide View;
    Two(kind, part, deleted, dir);
    Two(kind, part, part, dir);
    DecodeOne(kind, part, dir);
  }

  lemma DecodeOne(kind: Kind, a: Raw, dir: Name)
    ensures Decode(kind, [a], 1, dir) == EventsOf(kind, NoRun, a, dir)
  {
    hide EventsOf, View;
    assert RunAt(Views([a]), 0) == NoRun;
    assert Decode(kind, [a], 0, dir) == [];
  }

  lemma Two(kind: Kind, a: Raw, b: Raw, dir: Name)
    ensures Decode(kind, [a, b], 2, dir)
         == EventsOf(kind, NoRun, a, dir) + EventsOf(kind, NextRun(NoRun, View(a)), b, dir)
  {
    hide EventsOf, View, NextRun;
    var ss := Views([a, b]);
    assert RunAt(ss, 0) == NoRun && RunAt(ss, 1) == NextRun(NoRun, View(a));
    assert Decode(kind, [a, b], 0, dir) == [];
    assert Decode(kind, [a, b], 1, dir) == [] + EventsOf(kind, NoRun, a, dir);
  }

  /** Two entries with no part before them. */
  lemma DecodeTwo(kind: Kind, a: Raw, b: Raw, dir: Name)
    requires View(a).NoPart?
    ensures Decode(kind, [a, b], 2, dir) == EventsOf(kind, NoRun, a, dir) + EventsOf(kind, NoRun, b, dir)
  {
    hide EventsOf, View;
    Two(kind, a, b, dir);
  }

  // Laying a name out.

  const PART := 13

  function UnitBytes(s: Name): (r: seq<byte>)
    ensures |r| == 2 * |s| && |r| % 2 == 0
    ensures forall i :: 0 <= i < |s| ==> Le16(r, 2 * i) == s[i]
  {
    if s == [] then [] else UnitBytes(s[..|s| - 1]) + [s[|s| - 1] % 0x100, s[|s| - 1] / 0x100]
  }

  /** `name` to the end of its last part: a NUL, if there is room, then all ones. */
  function Padded(name: Name, n: nat): (r: Name)
    requires |name| <= PART * n
    ensures |r| == PART * n
  {
    if |name| == PART * n then name else name + [0] + seq(PART * n - |name| - 1, _ => 0xFFFF)
  }

  /** Part `k` of `n`: the text of a name from the unit 13 (k - 1). */
  function PartEntry(text: Name, k: nat, n: nat, sum: byte): (e: Raw)
    requires |text| == PART * n && 1 <= k <= n < LAST_PART
  {
    var b := UnitBytes(text[PART * (k - 1)..PART * k]);
    [if k == n then k + LAST_PART else k] + b[..10] + [ATTR_LONG, 0, sum] + b[10..22] + [0, 0] + b[22..]
  }

  /** The parts `k` to 1. */
  function Parts(text: Name, k: nat, n: nat, sum: byte): (r: seq<Raw>)
    requires |text| == PART * n && k <= n < LAST_PART
    ensures |r| == k
  {
    if k == 0 then [] else [PartEntry(text, k, n, sum)] + Parts(text, k - 1, n, sum)
  }

  function PartText(text: Name, k: nat): Name
    requires 1 <= k && PART * k <= |text|
  {
    text[PART * (k - 1)..PART * k]
  }

  lemma PartFields(text: Name, k: nat, n: nat, sum: byte)
    requires |text| == PART * n && 1 <= k <= n < 0x20
    ensures View(PartEntry(text, k, n, sum)) == Part(k, k == n, sum, UnitBytes(PartText(text, k)))
  {
    hide UnitBytes;
    var first: byte := if k == n then k + LAST_PART else k;
    FirstByte(k, n);
    PartLaid(PartEntry(text, k, n, sum), first, sum, UnitBytes(PartText(text, k)));
    hide PartEntry, Chars, Bit, PartText;
  }

  /** A part's number, and its mark. */
  lemma FirstByte(k: nat, n: nat)
    requires 1 <= k <= n < 0x20
    ensures var first := if k == n then k + LAST_PART else k;
      first < 0x100 && first % 0x20 == k && (Bit(first, LAST_PART) <==> k == n) && first != DELETED
  {
  }

  lemma PartLaid(e: Raw, first: byte, sum: byte, b: Chunk)
    requires e == [first] + b[..10] + [ATTR_LONG, 0, sum] + b[10..22] + [0, 0] + b[22..]
    ensures e[0] == first && e[11] == ATTR_LONG && e[13] == sum && Chars(e) == b
  {
    assert e[1..11] == b[..10] && e[14..26] == b[10..22] && e[28..32] == b[22..];
    assert b == b[..10] + b[10..22] + b[22..];
  }

  lemma {:induction false} PartsViewed(text: Name, k: nat, n: nat, sum: byte, j: nat)
    requires |text| == PART * n && k <= n < 0x20 && j < k
    ensures View(Parts(text, k, n, sum)[j]) == Part(k - j, k - j == n, sum, UnitBytes(PartText(text, k - j)))
    decreases k
  {
    hide View, PartText, UnitBytes, PartEntry;
    if j == 0 {
      PartFields(text, k, n, sum);
    } else {
      PartsViewed(text, k - 1, n, sum, j - 1);
    }
  }

  /** `ss` has the parts of `text` before `i`. */
  ghost predicate Laid(ss: seq<Slot>, i: nat, text: Name, n: nat, sum: byte) {
    && |text| == PART * n && n <= i <= |ss|
    && forall k :: 1 <= k <= n ==> ss[i - k] == Part(k, k == n, sum, UnitBytes(PartText(text, k)))
  }

  lemma LaidIsLongRun(ss: seq<Slot>, i: nat, text: Name, n: nat, sum: byte)
    requires Laid(ss, i, text, n, sum) && 1 <= n
    ensures LongRun(ss, i, n) && ss[i - n].sum == sum
  {
    forall j | i - n <= j < i
      ensures ss[j].Part? && (ss[j].marked <==> j == i - n) && ss[j].seqNo == i - j && ss[j].sum == sum
    {
      var k := i - j;
      assert ss[i - k] == Part(k, k == n, sum, UnitBytes(PartText(text, k)));
    }
  }

  lemma UnitsOfBytes(chunk: Name)
    ensures Units(UnitBytes(chunk)) == chunk
  {
  }

  lemma {:induction false} LaidText(ss: seq<Slot>, i: nat, text: Name, n: nat, k: nat, sum: byte)
    requires Laid(ss, i, text, n, sum) && k <= n
    requires forall j :: i - n <= j < i ==> ss[j].Part?
    ensures Units(TextBefore(ss, i - k, n - k)) == text[PART * k..]
    decreases n - k
  {
    hide Units, UnitBytes;
    if k == n {
    } else {
      LaidText(ss, i, text, n, k + 1, sum);
      var chunk := PartText(text, k + 1);
      assert ss[i - (k + 1)].chars == UnitBytes(chunk);
      UnitsAppend(UnitBytes(chunk), TextBefore(ss, i - k - 1, n - k - 1));
      UnitsOfBytes(chunk);
      assert text[PART * k..] == chunk + text[PART * (k + 1)..];
    }
  }

  lemma UnitsAppend(a: seq<byte>, b: seq<byte>)
    requires |a| % 2 == 0 && |b| % 2 == 0
    ensures Units(a + b) == Units(a) + Units(b)
  {
    forall i | 0 <= i < |Units(a + b)| ensures Units(a + b)[i] == (Units(a) + Units(b))[i] {
      if i >= |Units(a)| {
        assert 2 * i - |a| == 2 * (i - |Units(a)|);
      }
    }
  }

  lemma {:induction false} UntilNulStops(name: Name, rest: Name)
    requires 0 !in name && (rest == [] || rest[0] == 0)
    ensures UntilNul(name + rest) == name
  {
    if name == [] {
      assert name + rest == rest;
    } else {
      assert (name + rest)[1..] == name[1..] + rest;
      UntilNulStops(name[1..], rest);
    }
  }

  function PartCount(name: Name): nat {
    (|name| + 12) / PART
  }

  /** The long-name entries of `name` before a short entry. */
  function LongLayout(name: Name, short: Raw): (r: seq<Raw>)
    requires PartCount(name) < 0x20
    ensures |r| == PartCount(name)
  {
    var n := PartCount(name);
    Parts(Padded(name, n), n, n, Checksum(0, short[..11]))
  }

  lemma LayoutLaid(pre: seq<Raw>, name: Name, short: Raw)
    requires PartCount(name) < 0x20
    ensures var n := PartCount(name);
      Laid(Views(pre + LongLayout(name, short)), |pre| + n, Padded(name, n), n, Checksum(0, short[..11]))
  {
    var n := PartCount(name);
    var es := pre + LongLayout(name, short);
    forall k | 1 <= k <= n
      ensures Views(es)[|pre| + n - k]
        == Part(k, k == n, Checksum(0, short[..11]), UnitBytes(PartText(Padded(name, n), k)))
    {
      PartsViewed(Padded(name, n), n, n, Checksum(0, short[..11]), n - k);
    }
  }

  lemma LaidWhole(ss: seq<Slot>, i: nat, text: Name, n: nat, sum: byte)
    requires Laid(ss, i, text, n, sum)
    requires forall j :: i - n <= j < i ==> ss[j].Part?
    ensures Units(TextBefore(ss, i, n)) == text
  {
    hide Laid, Units, TextBefore;
    LaidText(ss, i, text, n, 0, sum);
    assert text[PART * 0..] == text;
  }

  lemma LaidTextIs(ss: seq<Slot>, i: nat, name: Name, n: nat, sum: byte)
    requires 0 !in name && |name| <= PART * n && Laid(ss, i, Padded(name, n), n, sum)
    requires forall j :: i - n <= j < i ==> ss[j].Part?
    ensures UntilNul(Units(TextBefore(ss, i, n))) == name
  {
    hide Padded, Laid, UntilNul, Units, TextBefore;
    PaddedStops(name, n);
    LaidWhole(ss, i, Padded(name, n), n, sum);
  }

  lemma LaidReadsBack(ss: seq<Slot>, i: nat, name: Name, n: nat, e: Raw, dir: Name)
    requires 0 !in name && |name| <= PART * n && 1 <= n && Laid(ss, i, Padded(name, n), n, Checksum(0, e[..11]))
    ensures StoredName(RunAt(ss, i), e) == name && NameFlaws(RunAt(ss, i), e, dir) == []
  {
    LaidIsLongRun(ss, i, Padded(name, n), n, Checksum(0, e[..11]));
    LaidTextIs(ss, i, name, n, Checksum(0, e[..11]));
    LongNameStored(ss, i, n, e, dir);
  }

  /** A name laid out as the specification has it reads back as itself, whatever entries stand before it. */
  lemma LongNameRoundTrip(pre: seq<Raw>, name: Name, short: Raw, dir: Name)
    requires name != [] && 0 !in name && PartCount(name) < 0x20
    ensures var es := pre + LongLayout(name, short);
      var r := RunAt(Views(es), |es|);
      StoredName(r, short) == name && NameFlaws(r, short, dir) == []
  {
    hide StoredName, NameFlaws, Padded, Laid, LongLayout, RunAt;
    LayoutLaid(pre, name, short);
    var es, n := pre + LongLayout(name, short), PartCount(name);
    assert |es| == |pre| + n && 1 <= n && |name| <= PART * n;
    LaidReadsBack(Views(es), |es|, name, n, short, dir);
  }

  lemma PaddedStops(name: Name, n: nat)
    requires 0 !in name && |name| <= PART * n
    ensures UntilNul(Padded(name, n)) == name
  {
    if |name| < PART * n {
      var rest := [0] + seq(PART * n - |name| - 1, _ => 0xFFFF);
      UntilNulStops(name, rest);
      assert Padded(name, n) == name + rest;
    } else {
      UntilNulStops(name, []);
      assert Padded(name, n) == name + [];
    }
  }

  /** Every part of a run but the marked one continues it. */
  lemma PartContinues(ss: seq<Slot>, i: nat, n: nat, j: nat)
    requires Falling(ss, i, n) && i - n <= j < i
    ensures ss[j].Part? && (ss[j].marked || Continues(RunAt(ss, j), ss[j]))
  {
    hide NextRun;
    var m := j + 1 - (i - n);
    assert Falling(ss, j + 1, m);
    FallingIsHeld(ss, j + 1, m);
  }

  lemma PartSilent(kind: Kind, r: Run, e: Raw, dir: Name)
    requires View(e).Part? && (View(e).marked || Continues(r, View(e)))
    ensures EventsOf(kind, r, e, dir) == []
  {
  }

  /** A run reports nothing and yields nothing. */
  lemma {:induction false} PartsSilent(kind: Kind, es: seq<Raw>, i: nat, n: nat, j: nat, dir: Name)
    requires i <= |es| && Falling(Views(es), i, n) && i - n <= j <= i
    ensures Decode(kind, es, j, dir) == Decode(kind, es, i - n, dir)
    decreases j
  {
    hide EventsOf, View, Continues, RunAt;
    if j == i - n {
    } else {
      PartsSilent(kind, es, i, n, j - 1, dir);
      PartContinues(Views(es), i, n, j - 1);
      PartSilent(kind, RunAt(Views(es), j - 1), es[j - 1], dir);
    }
  }

  lemma {:induction false} RunAtPrefix(ss: seq<Slot>, tt: seq<Slot>, i: nat)
    requires i <= |ss| && i <= |tt| && ss[..i] == tt[..i]
    ensures RunAt(ss, i) == RunAt(tt, i)
  {
    if i == 0 {
    } else {
      assert ss[i - 1] == ss[..i][i - 1] == tt[i - 1];
      assert ss[..i - 1] == ss[..i][..i - 1] == tt[..i - 1];
      RunAtPrefix(ss, tt, i - 1);
    }
  }

  lemma ViewsPrefix(a: seq<Raw>, b: seq<Raw>, i: nat)
    requires i <= |a|
    ensures Views(a + b)[..i] == Views(a)[..i]
  {
    hide View;
  }

  lemma {:induction false} DecodePrefix(kind: Kind, a: seq<Raw>, b: seq<Raw>, i: nat, dir: Name)
    requires i <= |a|
    ensures Decode(kind, a + b, i, dir) == Decode(kind, a, i, dir)
  {
    hide EventsOf, View, RunAt, Views;
    if i == 0 {
    } else {
      DecodePrefix(kind, a, b, i - 1, dir);
      ViewsPrefix(a, b, i - 1);
      RunAtPrefix(Views(a + b), Views(a), i - 1);
    }
  }

  // Names that need no long name.

  /** A character the 8.3 form keeps as it is. */
  predicate ShortChar(u: Unit) {
    || 0x41 <= u <= 0x5A || 0x30 <= u <= 0x39
    || u in [0x24, 0x25, 0x27, 0x2D, 0x5F, 0x40, 0x7E, 0x60, 0x21, 0x28, 0x29, 0x7B, 0x7D, 0x5E, 0x23, 0x26]
  }

  predicate ShortChars(s: Name) {
    forall i :: 0 <= i < |s| ==> ShortChar(s[i])
  }

  /** An upper-case 8.3 name whose base has `k` characters. */
  predicate Split83(name: Name, k: nat) {
    && 1 <= k <= 8 && k <= |name| && ShortChars(name[..k])
    && (k < |name| ==> name[k] == 0x2E && k + 2 <= |name| <= k + 4 && ShortChars(name[k + 1..]))
  }

  /** `needs_long`: anything but an upper-case 8.3 name. */
  predicate NeedsLong(name: Name) {
    forall k: nat | k <= 8 :: !Split83(name, k)
  }

  /** `slots`: the directory entries a name takes. */
  function SlotCount(name: Name): nat {
    1 + if NeedsLong(name) then PartCount(name) else 0
  }

  /** The characters of 8.3 names, written out. */
  lemma ShortCharIs(u: Unit, c: char)
    requires u == c as int
    ensures ShortChar(u) <==> c in "ABCDEFGHIJKLM" + "NOPQRSTUVWXYZ" + "0123456789" + "$%'-_@~`!(){}^#&"
  {
    assert c in "ABCDEFGHIJKLM" <==> 'A' <= c <= 'M';
    assert c in "NOPQRSTUVWXYZ" <==> 'N' <= c <= 'Z';
    assert c in "0123456789" <==> '0' <= c <= '9';
  }

  /** One to eight characters, and none or a dot and one to three. */
  predicate Is83(name: Name, base: Name, ext: Name) {
    && 1 <= |base| <= 8 && ShortChars(base) && |ext| <= 3 && ShortChars(ext)
    && name == base + if ext == [] then [] else [0x2E] + ext
  }

  /** A name takes one entry if it is an 8.3 name, and otherwise one more for every thirteen characters. */
  lemma SlotsExact(name: Name)
    ensures NeedsLong(name) <==> !exists base, ext :: Is83(name, base, ext)
    ensures !NeedsLong(name) ==> SlotCount(name) == 1
    ensures NeedsLong(name) ==> 13 * (SlotCount(name) - 2) < |name| <= 13 * (SlotCount(name) - 1)
  {
    hide ShortChar;
    forall base, ext | Is83(name, base, ext) ensures !NeedsLong(name) {
      assert name[..|base|] == base;
      if ext != [] {
        assert name[|base| + 1..] == ext;
      }
      assert Split83(name, |base|);
    }
    if !NeedsLong(name) {
      var k: nat :| k <= 8 && Split83(name, k);
      if k == |name| {
        assert name[..k] == name;
        assert Is83(name, name, []);
      } else {
        assert Is83(name, name[..k], name[k + 1..]);
      }
    }
  }

  /** `s` in a field of `n` bytes, filled with spaces. */
  predicate FieldOf(f: seq<byte>, s: Name) {
    && |s| <= |f| && (forall i :: 0 <= i < |s| ==> f[i] == s[i]) && (forall i :: |s| <= i < |f| ==> f[i] == SPACE)
  }

  /** The short entry is the 8.3 name's own, its case bits clear. */
  predicate NamedBy(e: Raw, name: Name, k: nat) {
    && k <= |name| && FieldOf(e[..8], name[..k]) && FieldOf(e[8..11], if k < |name| then name[k + 1..] else [])
    && !Bit(e[12], 0x08) && !Bit(e[12], 0x10)
  }

  lemma {:induction false} FieldStripped(f: seq<byte>, s: Name)
    requires FieldOf(f, s) && ShortChars(s)
    ensures |RStrip(f)| == |s| && (forall i :: 0 <= i < |s| ==> RStrip(f)[i] == s[i])
    decreases |f|
  {
    if |f| == |s| {
      assert s != [] ==> ShortChar(s[|s| - 1]);
    } else {
      FieldStripped(f[..|f| - 1], s);
    }
  }

  lemma FieldText(f: seq<byte>, s: Name)
    requires FieldOf(f, s) && ShortChars(s)
    ensures Text(RStrip(f), false) == s
  {
    FieldStripped(f, s);
  }

  lemma Name83Stored(e: Raw, name: Name, k: nat)
    requires Split83(name, k) && NamedBy(e, name, k)
    ensures ShortName(e[..11], e[12]) == name
  {
    hide RStrip, Text, FieldOf, ShortChar;
    var short := e[..11];
    assert short[..8] == e[..8] && short[8..] == e[8..11];
    FieldText(e[..8], name[..k]);
    KanjiFree(e[..8], name[..k]);
    if k < |name| {
      FieldText(e[8..11], name[k + 1..]);
      KanjiFree(e[8..11], name[k + 1..]);
      assert name == name[..k] + DOT + name[k + 1..];
    } else {
      assert ShortChars([]);
      FieldText(e[8..11], []);
      KanjiFree(e[8..11], []);
      assert name == name[..k];
    }
  }

  lemma KanjiFree(f: seq<byte>, s: Name)
    requires FieldOf(f, s) && ShortChars(s)
    ensures |RStrip(f)| == |s| && (s != [] ==> RStrip(f)[0] != 0x05)
  {
    FieldStripped(f, s);
    if s != [] {
      assert ShortChar(s[0]);
    }
  }

  /** The entries of a name: its parts, if it needs a long name, and its short entry. */
  ghost predicate LaysOut(es: seq<Raw>, name: Name, short: Raw) {
    && name != [] && 0 !in name && PartCount(name) < 0x20 && IsShort(short)
    && if NeedsLong(name) then es == LongLayout(name, short) + [short]
       else es == [short] && exists k :: 0 <= k <= 8 && Split83(name, k) && NamedBy(short, name, k)
  }

  lemma LongRoundTrip(kind: Kind, pre: seq<Raw>, name: Name, short: Raw, dir: Name)
    requires name != [] && 0 !in name && PartCount(name) < 0x20
    ensures var es := pre + LongLayout(name, short) + [short];
      var r := RunAt(Views(es), |es| - 1);
      && StoredName(r, short) == name && NameFlaws(r, short, dir) == []
      && Decode(kind, es, |es| - 1, dir) == Decode(kind, es, |pre|, dir)
  {
    var head, n := pre + LongLayout(name, short), PartCount(name);
    var es := head + [short];
    LongNameRoundTrip(pre, name, short, dir);
    assert Views(es)[..|head|] == Views(head)[..|head|];
    RunAtPrefix(Views(es), Views(head), |head|);
    LayoutLaid(pre, name, short);
    LaidPrefix(Views(head), Views(es), |head|, Padded(name, n), n, Checksum(0, short[..11]));
    LaidIsLongRun(Views(es), |head|, Padded(name, n), n, Checksum(0, short[..11]));
    PartsSilent(kind, es, |head|, n, |head|, dir);
  }

  lemma NoRunName(e: Raw, dir: Name)
    ensures StoredName(NoRun, e) == ShortName(e[..11], e[12]) && NameFlaws(NoRun, e, dir) == []
  {
  }

  lemma ShortRoundTrip(pre: seq<Raw>, name: Name, short: Raw, k: nat, dir: Name)
    requires RunAt(Views(pre), |pre|).NoRun? && Split83(name, k) && NamedBy(short, name, k)
    ensures var r := RunAt(Views(pre + [short]), |pre|);
      StoredName(r, short) == name && NameFlaws(r, short, dir) == []
  {
    hide StoredName, NameFlaws, ShortName, Split83, NamedBy, View, RunAt, Views;
    ViewsPrefix(pre, [short], |pre|);
    RunAtPrefix(Views(pre + [short]), Views(pre), |pre|);
    NoRunName(short, dir);
    Name83Stored(short, name, k);
  }

  /** On FAT16 an entry has no high half, and one that is there is reported. */
  function HighHalfFlaws(kind: Kind, short: Raw, dir: Name, name: Name): seq<Event> {
    if kind.Fat16? && Le16(short, 20) != 0 then [Flaw(HighHalf(dir, name, Le16(short, 20)))] else []
  }

  /** A short entry's fields, under a name. */
  function EntryOf(kind: Kind, short: Raw, name: Name): Entry {
    Entry(name, short[11], if kind.Fat32? then Le16(short, 20) * 0x1_0000 + Le16(short, 26) else Le16(short, 26),
          Le32(short, 28), DosTime(Le16(short, 22), Le16(short, 24)))
  }

  lemma ShortEvents(kind: Kind, r: Run, short: Raw, dir: Name)
    requires IsShort(short)
    ensures NameFlaws(r, short, dir) == [] ==>
      EventsOf(kind, r, short, dir)
        == HighHalfFlaws(kind, short, dir, StoredName(r, short)) + [Found(EntryOf(kind, short, StoredName(r, short)))]
  {
    hide StoredName, NameFlaws, DosTime;
  }

  lemma NameStored(kind: Kind, pre: seq<Raw>, es: seq<Raw>, name: Name, short: Raw, dir: Name)
    requires LaysOut(es, name, short)
    requires !NeedsLong(name) ==> RunAt(Views(pre), |pre|).NoRun?
    ensures |es| == SlotCount(name)
    ensures var r := RunAt(Views(pre + es), |pre + es| - 1);
      && StoredName(r, short) == name && NameFlaws(r, short, dir) == []
      && Decode(kind, pre + es, |pre + es|, dir) == Decode(kind, pre, |pre|, dir) + EventsOf(kind, r, short, dir)
  {
    hide EventsOf, StoredName, NameFlaws, View, RunAt, NeedsLong, NamedBy, Split83;
    DecodePrefix(kind, pre, es, |pre|, dir);
    if NeedsLong(name) {
      LongRoundTrip(kind, pre, name, short, dir);
      assert pre + es == pre + LongLayout(name, short) + [short];
    } else {
      var k :| 0 <= k <= 8 && Split83(name, k) && NamedBy(short, name, k);
      ShortRoundTrip(pre, name, short, k, dir);
    }
    assert (pre + es)[|pre + es| - 1] == short;
  }

  /** A name laid out takes exactly `slots` entries, and a directory that goes on with them reads on with one entry
      of that name, its fields the short entry's, and nothing reported but FAT16's high half, if it has one. A
      long name needs nothing of what stands before it; an 8.3 name must not stand right behind another's parts. */
  lemma NameRoundTrip(kind: Kind, pre: seq<Raw>, es: seq<Raw>, name: Name, short: Raw, dir: Name)
    requires LaysOut(es, name, short)
    requires !NeedsLong(name) ==> RunAt(Views(pre), |pre|).NoRun?
    ensures |es| == SlotCount(name)
    ensures var r := RunAt(Views(pre + es), |pre + es| - 1);
      && StoredName(r, short) == name && NameFlaws(r, short, dir) == []
      && Decode(kind, pre + es, |pre + es|, dir)
         == Decode(kind, pre, |pre|, dir) + HighHalfFlaws(kind, short, dir, name) + [Found(EntryOf(kind, short, name))]
  {
    hide *;
    LaidShort(es, name, short);
    NameStored(kind, pre, es, name, short, dir);
    ShortEvents(kind, RunAt(Views(pre + es), |pre + es| - 1), short, dir);
    Associates(Decode(kind, pre, |pre|, dir), HighHalfFlaws(kind, short, dir, name),
               [Found(EntryOf(kind, short, name))]);
  }

  lemma LaidShort(es: seq<Raw>, name: Name, short: Raw)
    requires LaysOut(es, name, short)
    ensures IsShort(short) && es != []
  {
    hide NeedsLong, NamedBy, Split83, LongLayout;
  }

  lemma LaidPrefix(ss: seq<Slot>, tt: seq<Slot>, i: nat, text: Name, n: nat, sum: byte)
    requires Laid(ss, i, text, n, sum) && i <= |tt| && ss[..i] == tt[..i]
    ensures Laid(tt, i, text, n, sum)
  {
    forall k | 1 <= k <= n ensures tt[i - k] == Part(k, k == n, sum, UnitBytes(PartText(text, k))) {
      assert tt[i - k] == tt[..i][i - k] == ss[i - k];
    }
  }
}
