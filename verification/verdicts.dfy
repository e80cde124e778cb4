/** Which code was judged, and what the judges said: verdicts kept for a pair of ids, and the release that asks
    for them. */
module Verdicts {
  import opened Results

  const TIERS := ["gates", "long"]
  const SDK := ".sdk-"
  const DIRTY := "-dirty"

  /** The checkouts, as far as they are asked: this repository's and the SDK's commits and whether they are
      committed, what keeps the applications from being built, and the id of what an image reads of them. */
  datatype World = World(head: string, dirty: bool, sdk: string, sdkDirty: bool, stale: Option<string>,
                         content: string, servedDirty: bool, webboxDirty: bool) {

    /** Commits are hexadecimal; the content id is `content-` and sixteen digits. */
    predicate Valid() {
      Hex(head) && Hex(sdk) && |content| == 24
    }

    function Ours(): string {
      Commit(head, dirty) + SDK + Commit(sdk, sdkDirty)
    }

    function Pair(): (string, string) {
      (Ours(), content)
    }
  }

  predicate Hex(s: string) {
    forall i :: 0 <= i < |s| ==> '0' <= s[i] <= '9' || 'a' <= s[i] <= 'f'
  }

  function Commit(head: string, dirty: bool): string {
    head + if dirty then DIRTY else ""
  }

  /** `str.isspace`. */
  predicate IsSpace(c: char) {
    || '\t' <= c <= '\r' || '\U{1C}' <= c <= ' ' || c == '\U{85}' || c == '\U{A0}' || c == '\U{1680}'
    || '\U{2000}' <= c <= '\U{200A}' || c == '\U{2028}' || c == '\U{2029}' || c == '\U{202F}' || c == '\U{205F}'
    || c == '\U{3000}'
  }

  predicate Blank(s: string) {
    forall i :: 0 <= i < |s| ==> IsSpace(s[i])
  }

  function UntilBlank(s: string): (r: string)
    ensures |r| <= |s|
  {
    if s == "" || IsSpace(s[0]) then "" else [s[0]] + UntilBlank(s[1..])
  }

  /** `s.split()`. */
  function Words(s: string): seq<string>
    decreases |s|
  {
    if s == "" then []
    else if IsSpace(s[0]) then Words(s[1..])
    else [UntilBlank(s)] + Words(s[|UntilBlank(s)|..])
  }

  /** `s.split(sep, 1)`, for an `s` that holds `sep`: what is before the first one, and what is after it. */
  function SplitOnce(s: string, sep: string): (string, string) {
    if sep <= s then ("", s[|sep|..])
    else if s == "" then ("", "")
    else var rest := SplitOnce(s[1..], sep); ([s[0]] + rest.0, rest.1)
  }

  predicate EndsWith(s: string, end: string) {
    |end| <= |s| && s[|s| - |end|..] == end
  }

  function PathOf(tier: string, pair: (string, string)): string {
    tier + "-" + pair.0 + "-" + pair.1
  }

  /** What `ids` prints, and what a run must have started on. */
  function IdsOf(pair: (string, string)): string {
    pair.0 + " " + pair.1
  }

  // The names keep apart what they name.

  /** Two texts joined by a separator are these two only, if the second has a known length. */
  lemma Parted(a: string, b: string, c: string, d: string, sep: string)
    requires |b| == |d| && a + sep + b == c + sep + d
    ensures a == c && b == d
  {
    var s := a + sep + b;
    assert s[..|a|] == a && s[|a| + |sep|..] == b;
    assert s == c + sep + d && |a| == |c|;
    assert s[..|a|] == c && s[|a| + |sep|..] == d;
  }

  lemma SamePair(a: (string, string), b: (string, string))
    requires |a.1| == |b.1| && IdsOf(a) == IdsOf(b)
    ensures a == b
  {
    Parted(a.0, a.1, b.0, b.1, " ");
  }

  lemma SameRest(before: string, a: string, b: string)
    requires before + a == before + b
    ensures a == b
  {
    assert (before + a)[|before|..] == a && (before + b)[|before|..] == b;
  }

  /** A verdict's file is the verdict of one tier and one pair only. */
  lemma PathExact(tier: string, a: (string, string), other: string, b: (string, string))
    requires tier in ["gates", "long"] && other in ["gates", "long"] && |a.1| == |b.1|
    ensures PathOf(tier, a) == PathOf(other, b) <==> tier == other && a == b
  {
    if PathOf(tier, a) == PathOf(other, b) {
      assert PathOf(tier, a)[0] == tier[0] && PathOf(other, b)[0] == other[0];
      assert tier == other;
      var x, y := a.0 + "-" + a.1, b.0 + "-" + b.1;
      assert PathOf(tier, a) == (tier + "-") + x && PathOf(other, b) == (tier + "-") + y;
      SameRest(tier + "-", x, y);
      Parted(a.0, a.1, b.0, b.1, "-");
    }
  }

  lemma {:induction false} SplitAt(a: string, b: string)
    requires '.' !in a
    ensures SplitOnce(a + SDK + b, SDK) == (a, b)
  {
    var s := a + SDK + b;
    if a == "" {
      assert s == SDK + b;
    } else {
      assert s[0] == a[0] && a[0] in a && !(SDK <= s);
      assert s[1..] == a[1..] + SDK + b;
      SplitAt(a[1..], b);
      assert [s[0]] + a[1..] == a;
    }
  }

  lemma CommitExact(head: string, dirty: bool)
    requires Hex(head)
    ensures '.' !in Commit(head, dirty) && (EndsWith(Commit(head, dirty), DIRTY) <==> dirty)
  {
    var s := Commit(head, dirty);
    if |DIRTY| <= |s| {
      assert s[|s| - |DIRTY|..][0] == s[|s| - |DIRTY|];
    }
  }

  lemma {:induction false} FirstWord(word: string, rest: string)
    requires word != "" && (forall i :: 0 <= i < |word| ==> !IsSpace(word[i]))
    ensures UntilBlank(word + " " + rest) == word
  {
    var s := word + " " + rest;
    assert s[0] == word[0];
    if |word| == 1 {
      assert s[1..] == " " + rest;
    } else {
      assert s[1..] == word[1..] + " " + rest;
      FirstWord(word[1..], rest);
    }
  }

  lemma SpacesAre(c: char)
    ensures IsSpace(c) <==>
      c in "\t\n\U{0B}\U{0C}\r\U{1C}\U{1D}\U{1E}\U{1F} \U{85}\U{A0}\U{1680}\U{2000}\U{2001}\U{2002}\U{2003}\U{2004}"
        + "\U{2005}\U{2006}\U{2007}\U{2008}\U{2009}\U{200A}\U{2028}\U{2029}\U{202F}\U{205F}\U{3000}"
  {
  }

  /** A commit as it is written: with `-dirty` behind it if it is not all that there is. */
  function Written(commit: string, dirty: bool): string {
    if dirty then commit + "-dirty" else commit
  }

  /** The ids, and a verdict's file, as they are written. */
  lemma NamesAre(tier: string, w: World)
    ensures var ours := Written(w.head, w.dirty) + ".sdk-" + Written(w.sdk, w.sdkDirty);
      && w.Pair() == (ours, w.content) && IdsOf(w.Pair()) == ours + " " + w.content
      && PathOf(tier, w.Pair()) == tier + "-" + ours + "-" + w.content
  {
    assert w.head + "" == w.head && w.sdk + "" == w.sdk;
  }

  // The protocol.

  /** A verdict that was kept, and the step that kept it. */
  datatype Verdict = Verdict(tier: string, outcome: string, pair: (string, string), at: nat, time: string)

  /** A run of the judges starts, or comes to record what they said, with its environment's SKIP. */
  datatype Event =
    | Edit(world: World)
    | Start(run: nat)
    | Record(run: nat, tier: string, outcome: string, skip: string, time: string)

  /** `started` is the ids that each run took as it started, `files` the verdicts' directory, `log` every
      verdict kept. */
  datatype State = State(world: World, started: map<nat, string>, files: map<string, string>, log: seq<Verdict>,
      clock: nat)

  predicate CanRecord(s: State, e: Event)
    requires e.Record?
  {
    && e.tier in TIERS && e.outcome in ["PASS", "FAIL"] && Blank(e.skip) && s.world.stale.None?
    && (if e.run in s.started then s.started[e.run] else "") == IdsOf(s.world.Pair())
  }

  function Line(outcome: string, time: string): string {
    outcome + " " + time + "\n"
  }

  function Next(s: State, e: Event): State {
    match e
    case Edit(world) => s.(world := world, clock := s.clock + 1)
    case Start(run) =>
      s.(started := s.started[run := if s.world.stale.None? then IdsOf(s.world.Pair()) else ""], clock := s.clock + 1)
    case Record(run, tier, outcome, skip, time) =>
      if !CanRecord(s, e) then s.(clock := s.clock + 1)
      else
        s.(files := s.files[PathOf(tier, s.world.Pair()) := Line(outcome, time)],
           log := s.log + [Verdict(tier, outcome, s.world.Pair(), s.clock, time)], clock := s.clock + 1)
  }

  /** The state after the first `k` events. */
  function After(world: World, events: seq<Event>, k: nat): State
    requires k <= |events|
  {
    if k == 0 then State(world, map[], map[], [], 0) else Next(After(world, events, k - 1), events[k - 1])
  }

  // What a release is told.

  datatype Reason =
    | NotFresh(why: string)
    | OursUncommitted | SdkUncommitted | ServedUncommitted | WebboxUncommitted
    | NoVerdict(tier: string)
    | Said(tier: string, outcome: string, time: string)

  function TierReasons(s: State, tier: string): seq<Reason> {
    var path := PathOf(tier, s.world.Pair());
    var said := if path in s.files then Words(s.files[path]) else [];
    if said == [] then [NoVerdict(tier)]
    else if said[0] != "PASS" then [Said(tier, said[0], if |said| > 1 then said[1] else "?")]
    else []
  }

  function TreeReasons(w: World): seq<Reason> {
    var (here, sdk) := SplitOnce(w.Ours(), SDK);
    (if EndsWith(here, DIRTY) then [OursUncommitted] else [])
    + (if EndsWith(sdk, DIRTY) then [SdkUncommitted] else [])
    + (if w.servedDirty then [ServedUncommitted] else [])
    + if w.webboxDirty then [WebboxUncommitted] else []
  }

  /** The reasons that the first `n` tiers give. */
  function TiersReasons(s: State, n: nat): seq<Reason>
    requires n <= |TIERS|
  {
    if n == 0 then [] else TiersReasons(s, n - 1) + TierReasons(s, TIERS[n - 1])
  }

  function Reasons(s: State): seq<Reason> {
    if s.world.stale.Some? then [NotFresh(s.world.stale.value)]
    else TreeReasons(s.world) + TiersReasons(s, |TIERS|)
  }

  // What every run keeps.

  /** The last of the first `n` verdicts kept for a tier and a pair. */
  function Latest(log: seq<Verdict>, n: nat, tier: string, pair: (string, string)): (r: Option<Verdict>)
    requires n <= |log|
    ensures r.Some? ==> r.value in log && r.value.tier == tier && r.value.pair == pair
  {
    if n == 0 then None
    else if log[n - 1].tier == tier && log[n - 1].pair == pair then Some(log[n - 1])
    else Latest(log, n - 1, tier, pair)
  }

  /** The file of a tier and a pair is the line of what was kept last for them, and is not there if nothing was. */
  ghost predicate FileSays(s: State, tier: string, pair: (string, string)) {
    var path := tier + "-" + pair.0 + "-" + pair.1;
    match Latest(s.log, |s.log|, tier, pair)
    case None => path !in s.files
    case Some(v) =>
      v.outcome in ["PASS", "FAIL"] && path in s.files && s.files[path] == v.outcome + " " + v.time + "\n"
  }

  ghost predicate FilesSay(s: State) {
    forall tier, pair: (string, string) :: tier in ["gates", "long"] && |pair.1| == 24 ==> FileSays(s, tier, pair)
  }

  predicate ValidEvents(world: World, events: seq<Event>) {
    world.Valid() && forall i :: 0 <= i < |events| && events[i].Edit? ==> events[i].world.Valid()
  }

  /** A run's latest start before the step `k` was at `i`, and it was told the ids `told`. */
  ghost predicate StartedAt(world: World, events: seq<Event>, k: nat, run: nat, i: nat, told: string)
    requires k <= |events|
  {
    && i < k && events[i] == Start(run) && (forall j :: i < j < k ==> events[j] != Start(run))
    && told == if After(world, events, i).world.stale.None? then IdsOf(After(world, events, i).world.Pair()) else ""
  }

  /** Where a verdict came from: a run with nothing skipped, whose record found the same fresh pair as its start. */
  ghost predicate CameFrom(world: World, events: seq<Event>, v: Verdict) {
    && v.at < |events|
    && var e := events[v.at];
       && e.Record? && e.tier == v.tier && e.outcome == v.outcome && e.time == v.time
       && (forall i :: 0 <= i < |e.skip| ==> IsSpace(e.skip[i]))
       && After(world, events, v.at).world.stale.None? && After(world, events, v.at).world.Pair() == v.pair
       && exists i: nat :: StartedAt(world, events, v.at, e.run, i, IdsOf(v.pair))
  }

  lemma LineSays(outcome: string, time: string)
    requires outcome in ["PASS", "FAIL"]
    ensures Words(Line(outcome, time)) != [] && Words(Line(outcome, time))[0] == outcome
  {
    assert Line(outcome, time) == outcome + " " + (time + "\n");
    FirstWord(outcome, time + "\n");
  }

  lemma {:induction false} LatestMore(log: seq<Verdict>, more: seq<Verdict>, n: nat, tier: string,
                                      pair: (string, string))
    requires n <= |log|
    ensures Latest(log + more, n, tier, pair) == Latest(log, n, tier, pair)
  {
    if n == 0 {
    } else {
      LatestMore(log, more, n - 1, tier, pair);
    }
  }

  lemma NextSays(s: State, e: Event)
    requires s.world.Valid() && FilesSay(s)
    ensures FilesSay(Next(s, e))
  {
    hide Latest, World.Pair;
    var s' := Next(s, e);
    forall tier, pair: (string, string) | tier in ["gates", "long"] && |pair.1| == 24 ensures FileSays(s', tier, pair) {
      assert FileSays(s, tier, pair);
      if e.Record? && CanRecord(s, e) {
        var v := Verdict(e.tier, e.outcome, s.world.Pair(), s.clock, e.time);
        LatestMore(s.log, [v], |s.log|, tier, pair);
        LatestNext(s.log, v, tier, pair);
        PairLength(s.world);
        PathExact(tier, pair, e.tier, v.pair);
      }
    }
  }

  lemma PairLength(w: World)
    requires w.Valid()
    ensures |w.Pair().1| == 24
  {
  }

  lemma LatestNext(log: seq<Verdict>, v: Verdict, tier: string, pair: (string, string))
    ensures Latest(log + [v], |log| + 1, tier, pair)
         == if v.tier == tier && v.pair == pair then Some(v) else Latest(log + [v], |log|, tier, pair)
  {
  }

  lemma {:induction false} WorldsValid(world: World, events: seq<Event>, k: nat)
    requires k <= |events| && ValidEvents(world, events)
    ensures After(world, events, k).world.Valid() && After(world, events, k).clock == k
  {
    if k == 0 {
    } else {
      WorldsValid(world, events, k - 1);
    }
  }

  /** However edits, starts and records interleave, the files say what was kept last. */
  lemma {:induction false} AlwaysSays(world: World, events: seq<Event>, k: nat)
    requires k <= |events| && ValidEvents(world, events)
    ensures FilesSay(After(world, events, k))
  {
    hide Words, PathOf;
    if k == 0 {
    } else {
      AlwaysSays(world, events, k - 1);
      WorldsValid(world, events, k - 1);
      NextSays(After(world, events, k - 1), events[k - 1]);
    }
  }

  lemma {:induction false} StartsKept(world: World, events: seq<Event>, k: nat, run: nat)
    requires k <= |events|
    ensures var started := After(world, events, k).started;
      run in started ==> exists i: nat :: StartedAt(world, events, k, run, i, started[run])
  {
    if k == 0 {
    } else {
      StartsKept(world, events, k - 1, run);
      var before, started := After(world, events, k - 1).started, After(world, events, k).started;
      if events[k - 1] == Start(run) {
        assert StartedAt(world, events, k, run, k - 1, started[run]);
      } else if run in started {
        var i: nat :| StartedAt(world, events, k - 1, run, i, before[run]);
        assert StartedAt(world, events, k, run, i, started[run]);
      }
    }
  }

  /** Every verdict kept came from a run that left nothing out, and whose code was at its end what it had been
      at its start. */
  lemma {:induction false} AlwaysCameFrom(world: World, events: seq<Event>, k: nat)
    requires k <= |events| && ValidEvents(world, events)
    ensures forall v :: v in After(world, events, k).log ==> CameFrom(world, events, v)
  {
    hide CameFrom, CanRecord, World.Pair, World.Valid, PathOf, IdsOf;
    if k == 0 {
    } else {
      AlwaysCameFrom(world, events, k - 1);
      WorldsValid(world, events, k - 1);
      var s, e := After(world, events, k - 1), events[k - 1];
      if e.Record? && CanRecord(s, e) {
        RecordCameFrom(world, events, k - 1);
        assert After(world, events, k).log == s.log + [Verdict(e.tier, e.outcome, s.world.Pair(), k - 1, e.time)];
      }
    }
  }

  lemma RecordCameFrom(world: World, events: seq<Event>, k: nat)
    requires k < |events| && events[k].Record? && CanRecord(After(world, events, k), events[k])
    ensures var e := events[k];
      CameFrom(world, events, Verdict(e.tier, e.outcome, After(world, events, k).world.Pair(), k, e.time))
  {
    hide After, World.Pair;
    StartsKept(world, events, k, events[k].run);
    NotEmpty(After(world, events, k).world.Pair());
  }

  lemma NotEmpty(pair: (string, string))
    ensures IdsOf(pair) != ""
  {
  }

  /** The last verdict kept for just what there is now is that the tier passed. */
  ghost predicate Passed(s: State, tier: string) {
    var kept := Latest(s.log, |s.log|, tier, s.world.Pair());
    kept.Some? && kept.value.outcome == "PASS"
  }

  /** No reason is given to refuse a release if and only if the applications can be built, all four trees are
      committed, and for both tiers the last verdict kept for just this pair is PASS. */
  lemma RequireExact(world: World, events: seq<Event>)
    requires ValidEvents(world, events)
    ensures var s := After(world, events, |events|);
      Reasons(s) == [] <==>
        && s.world.stale.None? && !s.world.dirty && !s.world.sdkDirty && !s.world.servedDirty && !s.world.webboxDirty
        && Passed(s, "gates") && Passed(s, "long")
  {
    hide Words, PathOf, SplitOnce, EndsWith, Latest;
    var s := After(world, events, |events|);
    hide After;
    WorldsValid(world, events, |events|);
    AlwaysSays(world, events, |events|);
    CommitExact(s.world.head, s.world.dirty);
    CommitExact(s.world.sdk, s.world.sdkDirty);
    SplitAt(Commit(s.world.head, s.world.dirty), Commit(s.world.sdk, s.world.sdkDirty));
    TierExact(s, TIERS[0]);
    TierExact(s, TIERS[1]);
    hide TierReasons, World.Pair;
    assert TiersReasons(s, 1) == TiersReasons(s, 0) + TierReasons(s, TIERS[0]);
  }

  lemma TierExact(s: State, tier: string)
    requires s.world.Valid() && FilesSay(s) && tier in TIERS
    ensures TierReasons(s, tier) == [] <==> Passed(s, tier)
  {
    hide Words, Latest;
    assert FileSays(s, tier, s.world.Pair());
    var kept := Latest(s.log, |s.log|, tier, s.world.Pair());
    if kept.Some? {
      LineSays(kept.value.outcome, kept.value.time);
    }
  }

  predicate OneWord(s: string) {
    s != "" && forall i :: 0 <= i < |s| ==> !IsSpace(s[i])
  }

  /** Two words on a line are two words. */
  lemma TwoWords(a: string, b: string)
    requires OneWord(a) && OneWord(b)
    ensures Words(a + " " + b + "\n") == [a, b]
  {
    var s := a + " " + (b + "\n");
    assert a + " " + b + "\n" == s;
    FirstWord(a, b + "\n");
    assert s[0] == a[0] && s[|a|..] == " " + (b + "\n");
    LastWord(b);
    assert (" " + (b + "\n"))[1..] == b + "\n";
    assert Words("\n") == Words("\n"[1..]) == [];
    assert (b + "\n")[0] == b[0] && (b + "\n")[|b|..] == "\n";
    assert Words(b + "\n") == [b] + Words("\n");
    assert Words(s[|a|..]) == Words(b + "\n");
  }

  lemma {:induction false} LastWord(word: string)
    requires OneWord(word)
    ensures UntilBlank(word + "\n") == word
  {
    var s := word + "\n";
    assert s[0] == word[0];
    if |word| == 1 {
      assert s[1..] == "\n";
    } else {
      assert s[1..] == word[1..] + "\n";
      LastWord(word[1..]);
    }
  }

  /** What `require` says of a tier whose last verdict for just this pair, if there is one, is `kept`. */
  function TierSays(tier: string, kept: Option<Verdict>): seq<Reason> {
    match kept
    case None => [NoVerdict(tier)]
    case Some(v) => if v.outcome == "PASS" then [] else [Said(tier, "FAIL", v.time)]
  }

  lemma TierReports(s: State, tier: string)
    requires s.world.Valid() && FilesSay(s) && tier in ["gates", "long"]
    requires var kept := Latest(s.log, |s.log|, tier, s.world.Pair()); kept.Some? ==> OneWord(kept.value.time)
    ensures TierReasons(s, tier) == TierSays(tier, Latest(s.log, |s.log|, tier, s.world.Pair()))
  {
    hide Words, Latest, IsSpace;
    assert FileSays(s, tier, s.world.Pair());
    var kept := Latest(s.log, |s.log|, tier, s.world.Pair());
    if kept.Some? {
      OutcomesAreWords();
      TwoWords(kept.value.outcome, kept.value.time);
    }
  }

  lemma OutcomesAreWords()
    ensures OneWord("PASS") && OneWord("FAIL")
  {
  }

  /** All that `require` says, in its order: what keeps the applications from being built, and nothing else; or the
      trees that are not committed, and then of each tier that there is no verdict for this pair, or what the last
      one was, and when. */
  lemma RequireReports(world: World, events: seq<Event>)
    requires ValidEvents(world, events)
    requires forall v :: v in After(world, events, |events|).log ==> OneWord(v.time)
    ensures var s := After(world, events, |events|);
      var w := s.world;
      Reasons(s)
        == if w.stale.Some? then [NotFresh(w.stale.value)]
           else (if w.dirty then [OursUncommitted] else []) + (if w.sdkDirty then [SdkUncommitted] else [])
                + (if w.servedDirty then [ServedUncommitted] else [])
                + (if w.webboxDirty then [WebboxUncommitted] else [])
                + (TierSays("gates", Latest(s.log, |s.log|, "gates", w.Pair()))
                   + TierSays("long", Latest(s.log, |s.log|, "long", w.Pair())))
  {
    hide Words, PathOf, SplitOnce, EndsWith, Latest, OneWord;
    var s := After(world, events, |events|);
    WorldsValid(world, events, |events|);
    AlwaysSays(world, events, |events|);
    hide After;
    CommitExact(s.world.head, s.world.dirty);
    CommitExact(s.world.sdk, s.world.sdkDirty);
    SplitAt(Commit(s.world.head, s.world.dirty), Commit(s.world.sdk, s.world.sdkDirty));
    TierReports(s, "gates");
    TierReports(s, "long");
    hide TierReasons, World.Pair, TierSays;
    assert TiersReasons(s, 0) == [] && TiersReasons(s, 1) == [] + TierReasons(s, "gates");
    assert TiersReasons(s, 2) == TierReasons(s, "gates") + TierReasons(s, "long");
  }

  /** A file of one word, which no record writes, has no time to tell, and one of none is no verdict. */
  lemma OtherFiles(s: State, tier: string)
    ensures var path := PathOf(tier, s.world.Pair());
      && (path in s.files && s.files[path] == "FAIL" ==> TierReasons(s, tier) == [Said(tier, "FAIL", "?")])
      && (path in s.files && s.files[path] == " \n" ==> TierReasons(s, tier) == [NoVerdict(tier)])
  {
    hide PathOf, World.Pair;
    assert UntilBlank("FAIL") == "FAIL";
    assert Words("FAIL") == ["FAIL"];
    assert Words(" \n") == Words(" \n"[1..]);
  }

  /** The verdict that a pair has came from a run of just that pair. */
  lemma {:induction false} LatestCameFrom(world: World, events: seq<Event>, n: nat, tier: string,
                                          pair: (string, string))
    returns (v: Verdict)
    requires ValidEvents(world, events) && n <= |After(world, events, |events|).log|
    requires Latest(After(world, events, |events|).log, n, tier, pair).Some?
    ensures v.tier == tier && v.pair == pair && CameFrom(world, events, v)
    ensures Latest(After(world, events, |events|).log, n, tier, pair) == Some(v)
  {
    hide CameFrom;
    AlwaysCameFrom(world, events, |events|);
    var log := After(world, events, |events|).log;
    hide After;
    if log[n - 1].tier == tier && log[n - 1].pair == pair {
      v := log[n - 1];
    } else {
      v := LatestCameFrom(world, events, n - 1, tier, pair);
    }
  }

  /** What a release stands on: for both tiers, a verdict of just what is released, by a run that started and
      ended on it with nothing skipped, and that passed. */
  lemma ReleaseJudged(world: World, events: seq<Event>, tier: string) returns (v: Verdict)
    requires ValidEvents(world, events) && tier in ["gates", "long"] && Reasons(After(world, events, |events|)) == []
    ensures v.tier == tier && v.outcome == "PASS" && v.pair == After(world, events, |events|).world.Pair()
    ensures CameFrom(world, events, v)
  {
    hide After, Reasons, CameFrom, Latest;
    RequireExact(world, events);
    var s := After(world, events, |events|);
    v := LatestCameFrom(world, events, |s.log|, tier, s.world.Pair());
  }

  /** A run's latest start before the step `k` was at `i`. */
  predicate LatestStart(events: seq<Event>, k: nat, run: nat, i: nat)
    requires k <= |events|
  {
    i < k && events[i] == Start(run) && forall j :: i < j < k ==> events[j] != Start(run)
  }

  lemma {:induction false} StartFound(world: World, events: seq<Event>, k: nat, run: nat, i: nat)
    requires k <= |events| && LatestStart(events, k, run, i)
    ensures run in After(world, events, k).started
    ensures StartedAt(world, events, k, run, i, After(world, events, k).started[run])
  {
    if k == i + 1 {
    } else {
      StartFound(world, events, k - 1, run, i);
      assert events[k - 1] != Start(run);
    }
  }

  /** The step `k` is a record that the protocol asks for: of a known tier and outcome, with nothing skipped, the
      checkouts fresh, and fresh with the same ids at the run's latest start. */
  ghost predicate Keeps(world: World, events: seq<Event>, k: nat)
    requires k < |events|
  {
    && events[k].Record? && events[k].tier in ["gates", "long"] && events[k].outcome in ["PASS", "FAIL"]
    && (forall i :: 0 <= i < |events[k].skip| ==> IsSpace(events[k].skip[i]))
    && After(world, events, k).world.stale.None?
    && exists i: nat :: LatestStart(events, k, events[k].run, i) && SameFresh(world, events, i, k)
  }

  ghost predicate SameFresh(world: World, events: seq<Event>, i: nat, k: nat)
    requires i <= |events| && k <= |events|
  {
    && After(world, events, i).world.stale.None?
    && After(world, events, i).world.Pair() == After(world, events, k).world.Pair()
  }

  /** Exactly what `record` keeps, over every sequence of events: a verdict is added at a step if and only if the
      step keeps one. What happened between a run's start and its record does not matter, nor whether the code was
      edited meanwhile: only that at both ends it was the same. */
  lemma KeptExact(world: World, events: seq<Event>, k: nat)
    requires ValidEvents(world, events) && k < |events|
    ensures var before, after := After(world, events, k).log, After(world, events, k + 1).log;
      if Keeps(world, events, k) then
        after == before + [Verdict(events[k].tier, events[k].outcome, After(world, events, k).world.Pair(), k,
                                   events[k].time)]
      else after == before
  {
    hide After, IdsOf, World.Pair;
    WorldsValid(world, events, k);
    LogNext(world, events, k);
    if events[k].Record? {
      RecordKeeps(world, events, k);
    }
  }

  lemma LogNext(world: World, events: seq<Event>, k: nat)
    requires k < |events|
    ensures After(world, events, k + 1) == Next(After(world, events, k), events[k])
  {
  }

  lemma RecordKeeps(world: World, events: seq<Event>, k: nat)
    requires ValidEvents(world, events) && k < |events| && events[k].Record?
    ensures CanRecord(After(world, events, k), events[k]) <==> Keeps(world, events, k)
  {
    hide After, IdsOf, World.Pair;
    var s, run := After(world, events, k), events[k].run;
    WorldsValid(world, events, k);
    NotEmpty(s.world.Pair());
    if run in s.started {
      StartsKept(world, events, k, run);
      var i: nat :| StartedAt(world, events, k, run, i, s.started[run]);
      assert LatestStart(events, k, run, i);
      forall j: nat | LatestStart(events, k, run, j) ensures j == i {
        assert events[j] == Start(run) && events[i] == Start(run);
      }
      ToldSame(world, events, i, k, s.started[run]);
    } else {
      forall i: nat | LatestStart(events, k, run, i) ensures false {
        StartFound(world, events, k, run, i);
      }
    }
  }

  /** The ids that a run was told are those of now if and only if both are fresh and the same. */
  lemma ToldSame(world: World, events: seq<Event>, i: nat, k: nat, told: string)
    requires ValidEvents(world, events) && i < k <= |events|
    requires var w := After(world, events, i).world; told == if w.stale.None? then IdsOf(w.Pair()) else ""
    ensures told == IdsOf(After(world, events, k).world.Pair()) <==> SameFresh(world, events, i, k)
  {
    hide After, IdsOf;
    var w, now := After(world, events, i).world, After(world, events, k).world;
    WorldsValid(world, events, i);
    WorldsValid(world, events, k);
    NotEmpty(now.Pair());
    if IdsOf(w.Pair()) == IdsOf(now.Pair()) {
      SamePair(w.Pair(), now.Pair());
    }
  }

  /** So an edit that changes the ids and is undone while a run is on is not seen. */
  lemma EditUndone(w: World, edited: World, time: string)
    requires w.Valid() && edited.Valid() && w.stale.None? && edited.Pair() != w.Pair()
    ensures var events := [Start(0), Edit(edited), Edit(w), Record(0, "gates", "PASS", "", time)];
      ValidEvents(w, events) && After(w, events, 4).log == [Verdict("gates", "PASS", w.Pair(), 3, time)]
  {
    var events := [Start(0), Edit(edited), Edit(w), Record(0, "gates", "PASS", "", time)];
    assert After(w, events, 1).started == map[0 := IdsOf(w.Pair())];
    assert After(w, events, 2) == After(w, events, 1).(world := edited, clock := 2);
    assert After(w, events, 3) == After(w, events, 2).(world := w, clock := 3);
    assert CanRecord(After(w, events, 3), events[3]);
  }

  // The program.

  class Desk {
    var world: World
    var started: map<nat, string>
    var files: map<string, string>
    ghost var log: seq<Verdict>
    ghost var clock: nat

    constructor (world: World)
      ensures Now() == State(world, map[], map[], [], 0)
    {
      this.world, started, files, log, clock := world, map[], map[], [], 0;
    }

    ghost function Now(): State
      reads this
    {
      State(world, started, files, log, clock)
    }

    /** `current_pair`: the ids, or what is wrong. */
    method CurrentPair() returns (ours: string, r: Result<string, string>)
      ensures ours == world.Ours()
      ensures r == match world.stale case Some(why) => Err(why) case None => Ok(world.content)
    {
      ours := Commit(world.head, world.dirty) + SDK + Commit(world.sdk, world.sdkDirty);
      if world.stale.Some? {
        return ours, Err(world.stale.value);
      }
      return ours, Ok(world.content);
    }

    method Change(to: World)
      modifies this
      ensures Now() == Next(old(Now()), Edit(to))
    {
      world, clock := to, clock + 1;
    }

    /** `ids`, as a run takes them. */
    method Ids(run: nat)
      modifies this
      ensures Now() == Next(old(Now()), Start(run))
    {
      var ours, theirs := CurrentPair();
      started := started[run := if theirs.Err? then "" else ours + " " + theirs.value];
      clock := clock + 1;
    }

    /** `record`. */
    method Keep(run: nat, tier: string, outcome: string, skip: string, time: string) returns (kept: bool)
      modifies this
      ensures Now() == Next(old(Now()), Record(run, tier, outcome, skip, time))
      ensures kept <==> CanRecord(old(Now()), Record(run, tier, outcome, skip, time))
    {
      clock := clock + 1;
      if tier !in TIERS || outcome !in ["PASS", "FAIL"] {
        return false;
      }
      if !Blank(skip) {
        return false;
      }
      var ours, theirs := CurrentPair();
      if theirs.Err? {
        return false;
      }
      var was := if run in started then started[run] else "";
      if was != ours + " " + theirs.value {
        return false;
      }
      files := files[tier + "-" + ours + "-" + theirs.value := outcome + " " + time + "\n"];
      log := log + [Verdict(tier, outcome, world.Pair(), clock - 1, time)];
      return true;
    }

    /** `require`. */
    method Require() returns (why: seq<Reason>)
      ensures why == Reasons(Now())
    {
      hide TreeReasons, TierReasons;
      var ours, theirs := CurrentPair();
      if theirs.Err? {
        return [NotFresh(theirs.error)];
      }
      why := Uncommitted(ours);
      ghost var trees := why;
      for i := 0 to |TIERS|
        invariant why == trees + TiersReasons(Now(), i)
      {
        var more := RequireTier(TIERS[i], ours, theirs.value);
        why := why + more;
      }
    }

    /** The trees that are not committed. */
    method Uncommitted(ours: string) returns (why: seq<Reason>)
      requires ours == world.Ours()
      ensures why == TreeReasons(world)
    {
      hide SplitOnce, EndsWith, World.Ours;
      why := [];
      var (here, sdk) := SplitOnce(ours, SDK);
      if EndsWith(here, DIRTY) {
        why := why + [OursUncommitted];
      }
      if EndsWith(sdk, DIRTY) {
        why := why + [SdkUncommitted];
      }
      if world.servedDirty {
        why := why + [ServedUncommitted];
      }
      if world.webboxDirty {
        why := why + [WebboxUncommitted];
      }
    }

    method RequireTier(tier: string, ours: string, theirs: string) returns (why: seq<Reason>)
      requires (ours, theirs) == world.Pair()
      ensures why == TierReasons(Now(), tier)
    {
      hide Words;
      var path := tier + "-" + ours + "-" + theirs;
      var said := if path in files then Words(files[path]) else [];
      if said == [] {
        return [NoVerdict(tier)];
      }
      return if said[0] != "PASS" then [Said(tier, said[0], if |said| > 1 then said[1] else "?")] else [];
    }
  }
}
