/**
 * The Seafile sync probe: reads the lines of `seaf-cli status`, keeps for
 * every library the last time it was seen synchronized (a store persisted
 * between runs), and reports how long each library has been stuck in a
 * transient phase. Timestamps are whole seconds; the clock reading, the
 * status command and the JSON file are outside the model, so the loaded
 * store, the output lines and "now" are inputs and the store to save is an
 * output.
 */
module SeafileSync {
  import opened Wrappers
  import opened Text
  import opened Nagios

  /** The phases during which a library is busy rather than stuck in error. */
  const TransientPhases: set<string> := {"committing", "initializing", "downloading", "merging", "uploading"}
  const Synchronized: string := "synchronized"

  /** Used in contracts; the bodies divide by the literal `86400` (and `3600`,
      `60`), which the verifier treats as linear arithmetic where a division by
      a named constant would not be. */
  const SecondsPerDay: int := 86400

  /** The clock reading and the two thresholds, in minutes, of one run. */
  datatype Config = Config(now: int, warningMinutes: int, criticalMinutes: int)

  /** `datetime.timedelta`, to the second. */
  datatype Timedelta = Timedelta(seconds: int)

  /** One line of `seaf-cli status`, once read. */
  datatype Line = Comment | Entry(library: string, phase: string)

  /** The state the loop carries: the store of last-good times, the exit
      status so far and the message fragments so far, in line order. */
  datatype Tracker = Tracker(store: map<string, int>, status: int, fragments: seq<string>)

  /**
   * `str(td)`: whole days (rounded down, so negative for a
   * negative delta) as `"N day, "` or `"N days, "` when there are any, then
   * the remaining seconds of the day as `H:MM:SS`.
   */
  function TimedeltaText(td: Timedelta): string {
    var days := td.seconds / 86400;
    var secs := td.seconds % 86400;
    var clock := ClockText(secs);
    if days == 0 then clock
    else IntToString(days) + " day" + Plural(days) + ", " + clock
  }

  /** The plural ending of a day count other than one or minus one. */
  function Plural(n: int): string {
    if n == 1 || n == -1 then "" else "s"
  }

  /** `H:MM:SS` for a number of seconds within one day. */
  function ClockText(secs: int): string
    requires 0 <= secs < SecondsPerDay
  {
    ClockFields(secs / 3600, secs % 3600 / 60, secs % 60)
  }

  /** `"%d:%02d:%02d" % (h, m, s)`. */
  function ClockFields(h: nat, m: nat, s: nat): string {
    NatToString(h) + ":" + ZeroPad(NatToString(m), 2) + ":" + ZeroPad(NatToString(s), 2)
  }

  /** The three colon-separated fields of a clock read back as its numbers. */
  lemma ClockFieldsReadBack(h: nat, m: nat, s: nat)
    ensures var f := Split(ClockFields(h, m, s), ':');
      |f| == 3 && ParseDecimal(f[0]) == Some(h) && ParseDecimal(f[1]) == Some(m) && ParseDecimal(f[2]) == Some(s)
  {
    var hh, mm, ss := NatToString(h), ZeroPad(NatToString(m), 2), ZeroPad(NatToString(s), 2);
    NoColonInDigits(hh);
    NoColonInDigits(mm);
    NoColonInDigits(ss);
    Split3(hh, mm, ss, ':');
    ParsePadded(h, 0);
    ParsePadded(m, 2);
    ParsePadded(s, 2);
  }

  /** A delta of less than a day is written as its clock alone, whose fields
      are hours, minutes below 60 and seconds below 60 adding up to the delta. */
  lemma ClockReadsBack(t: int)
    requires 0 <= t < SecondsPerDay
    ensures var f := Split(TimedeltaText(Timedelta(t)), ':');
      |f| == 3 && ParseDecimal(f[0]).Some? && ParseDecimal(f[1]).Some? && ParseDecimal(f[2]).Some?
      && ParseDecimal(f[1]).value < 60 && ParseDecimal(f[2]).value < 60
      && ParseDecimal(f[0]).value * 3600 + ParseDecimal(f[1]).value * 60 + ParseDecimal(f[2]).value == t
  {
    var h, m, s := t / 3600, t % 3600 / 60, t % 60;
    assert t / 86400 == 0 && t % 86400 == t;
    assert TimedeltaText(Timedelta(t)) == ClockFields(h, m, s);
    ClockFieldsReadBack(h, m, s);
    ClockArithmetic(t);
  }

  /** A delta of a day or more, or a negative one, is written as the whole
      days (rounded down), `" day"` or `" days"`, a comma, and then the text
      of the remaining seconds of the day, which `ClockReadsBack` reads. */
  lemma DaysTextSplits(t: int)
    requires t / 86400 != 0
    ensures var d, c := t / 86400, t % 86400;
      0 <= c < SecondsPerDay && d * 86400 + c == t
      && (Plural(d) == "" <==> d == 1 || d == -1)
      && Split(TimedeltaText(Timedelta(t)), ',') == [IntToString(d) + " day" + Plural(d), " " + TimedeltaText(Timedelta(c))]
  {
    var d, c := t / 86400, t % 86400;
    assert c / 86400 == 0 && c % 86400 == c;
    var clock := ClockText(c);
    assert TimedeltaText(Timedelta(c)) == clock;
    var days := IntToString(d) + " day" + Plural(d);
    assert TimedeltaText(Timedelta(t)) == days + ", " + clock;
    NoCommaInNumber(d);
    NoCommaInClock(c / 3600, c % 3600 / 60, c % 60);
    SplitAtComma(days, clock);
  }

  /** Text without commas on either side of `", "` splits there. */
  lemma SplitAtComma(days: string, clock: string)
    requires ',' !in days && ',' !in clock
    ensures Split(days + ", " + clock, ',') == [days, " " + clock]
  {
    assert days + ", " + clock == days + [','] + (" " + clock);
    assert ',' !in " " + clock;
    SplitAtSep(days, " " + clock, ',');
    SplitWithoutSep(" " + clock, ',');
  }

  lemma NoCommaInNumber(i: int)
    ensures ',' !in IntToString(i) + " day" + Plural(i)
  {
    if i < 0 {
      assert AllDigits(NatToString(-i));
    }
  }

  lemma NoCommaInClock(h: nat, m: nat, s: nat)
    ensures ',' !in ClockFields(h, m, s)
  {
    assert AllDigits(NatToString(h)) && AllDigits(ZeroPad(NatToString(m), 2)) && AllDigits(ZeroPad(NatToString(s), 2));
  }

  /** Hours, minutes and seconds of a time of day add back up to it. */
  lemma ClockArithmetic(t: int)
    requires 0 <= t < SecondsPerDay
    ensures t % 3600 / 60 < 60 && t % 60 < 60
    ensures (t / 3600) * 3600 + (t % 3600 / 60) * 60 + t % 60 == t
  {
    var r := t % 3600;
    assert t == (t / 3600) * 3600 + r;
    assert r == (r / 60) * 60 + r % 60;
    assert r % 60 == t % 60;
  }

  lemma NoColonInDigits(s: string)
    requires AllDigits(s)
    ensures ':' !in s
  {
  }

  const EmptyLineError: string := "string index out of range"

  /** The message of unpacking a `split` result that lacks a phase. */
  function UnpackError(got: nat): string {
    "not enough values to unpack (expected 2, got " + NatToString(got) + ")"
  }

  predicate IsComment(line: string) {
    line != [] && line[0] == '#'
  }

  /**
   * One status line: a line starting with `#` is a comment; any other line
   * must split into a library name and the rest of the line (its phase). An
   * empty line fails on its first character, a line with fewer than two
   * words fails to unpack.
   */
  function ParseLine(line: string): (r: Result<Line, string>)
    ensures line == [] ==> r == Err(EmptyLineError)
    ensures r == Ok(Comment) <==> IsComment(line)
    ensures r.Ok? && r.value.Entry? ==>
      r.value.library != [] && NoSpace(r.value.library) && r.value.phase != [] && !IsSpace(r.value.phase[0])
    ensures line != [] && !IsComment(line) ==>
      (r.Err? <==> |SplitFirstWord(line)| < 2)
    ensures line != [] && !IsComment(line) && r.Err? ==> r.error == UnpackError(|SplitFirstWord(line)|)
  {
    if line == [] then Err(EmptyLineError)
    else if line[0] == '#' then Ok(Comment)
    else
      var parts := SplitFirstWord(line);
      if |parts| == 2 then Ok(Entry(parts[0], parts[1])) else Err(UnpackError(|parts|))
  }

  /** A line `<whitespace><library><whitespace><phase>` that does not start
      with `#` reads back as that library and phase: leading whitespace is
      skipped (so an indented library may itself start with `#`) and the phase
      keeps its inner whitespace. */
  lemma ParseLineOf(lead: string, library: string, gap: string, phase: string)
    requires AllSpace(lead)
    requires library != [] && NoSpace(library) && (lead != [] || library[0] != '#')
    requires gap != [] && AllSpace(gap)
    requires phase != [] && !IsSpace(phase[0])
    ensures ParseLine(lead + library + gap + phase) == Ok(Entry(library, phase))
  {
    var line := lead + library + gap + phase;
    SplitFirstWordOf(lead, library, gap, phase);
    if lead == [] {
      assert line[0] == library[0];
    } else {
      assert line[0] == lead[0];
    }
  }

  /** A lone word, with no phase after it, is an unpacking error. */
  lemma ParseLoneWord(word: string, trailing: string)
    requires word != [] && NoSpace(word) && word[0] != '#'
    requires AllSpace(trailing)
    ensures ParseLine(word + trailing) == Err(UnpackError(1))
  {
    var line := word + trailing;
    assert line[0] == word[0];
    assert line[|word|..] == trailing;
    LStripAfterSpace([], line);
    assert [] + line == line;
    TakeWordBeforeSpace(word, trailing);
    LStripAllSpace(trailing);
  }

  /** The store after a library is first seen: it is seeded with "now". */
  function Seed(store: map<string, int>, library: string, now: int): (r: map<string, int>)
    ensures library in r
    ensures library in store ==> r == store
    ensures library !in store ==> r[library] == now && r.Keys == store.Keys + {library}
    ensures forall k :: k in store ==> k in r && r[k] == store[k]
  {
    if library in store then store else store[library := now]
  }

  /** The severity a transient phase that has lasted `delta` calls for. */
  function TransientSeverity(delta: Timedelta, cfg: Config): (r: int)
    ensures r == StatusCritical <==> delta.seconds > cfg.criticalMinutes * 60
    ensures r == StatusWarning <==> cfg.warningMinutes * 60 < delta.seconds <= cfg.criticalMinutes * 60
    ensures r == StatusOk <==> delta.seconds <= cfg.warningMinutes * 60 && delta.seconds <= cfg.criticalMinutes * 60
  {
    if delta.seconds > cfg.criticalMinutes * 60 then StatusCritical
    else if delta.seconds > cfg.warningMinutes * 60 then StatusWarning
    else StatusOk
  }

  /** The severity one library line calls for. */
  function Contribution(phase: string, delta: Timedelta, cfg: Config): (r: int)
    ensures StatusOk <= r <= StatusCritical
  {
    if phase == Synchronized then StatusOk
    else if phase in TransientPhases then TransientSeverity(delta, cfg)
    else StatusCritical
  }

  /** The alarm mark shown before the elapsed time of a stale transient phase. */
  function Icon(delta: Timedelta, cfg: Config): string {
    if delta.seconds > cfg.warningMinutes * 60 || delta.seconds > cfg.criticalMinutes * 60 then "(!)" else ""
  }

  /** The message fragment of one library line. */
  function Fragment(library: string, phase: string, delta: Timedelta, cfg: Config): (r: string)
    ensures |r| >= |library| + 2 + |phase|
    ensures r[..|library| + 2 + |phase|] == library + ": " + phase
    ensures phase != Synchronized && phase in TransientPhases ==>
      r[|library| + 2 + |phase|..] == " " + Icon(delta, cfg) + TimedeltaText(delta)
    ensures !(phase != Synchronized && phase in TransientPhases) ==> |r| == |library| + 2 + |phase|
  {
    if phase != Synchronized && phase in TransientPhases then
      FragmentParts(library, phase, Icon(delta, cfg), TimedeltaText(delta));
      library + ": " + phase + " " + Icon(delta, cfg) + TimedeltaText(delta)
    else
      FragmentParts(library, phase, "", "");
      library + ": " + phase
  }

  /** Where the head of a fragment ends. */
  lemma FragmentParts(library: string, phase: string, icon: string, elapsed: string)
    ensures var n, head := |library| + 2 + |phase|, library + ": " + phase;
      var r := head + " " + icon + elapsed;
      |head| == n && head[..n] == head && |r| >= n && r[..n] == head && r[n..] == " " + icon + elapsed
  {
    var head := library + ": " + phase;
    var r := head + " " + icon + elapsed;
    assert r == head + (" " + icon + elapsed);
  }

  /**
   * The effect of one library line: the library is seeded if new; a
   * synchronized library's time becomes "now"; the status becomes the worse
   * of itself and the line's contribution; the line's fragment is appended.
   */
  function Step(t: Tracker, library: string, phase: string, cfg: Config): Tracker {
    var seeded := Seed(t.store, library, cfg.now);
    var delta := Elapsed(t.store, library, cfg.now);
    Tracker(
      if phase == Synchronized then seeded[library := cfg.now] else seeded,
      MaxStatus(t.status, Contribution(phase, delta, cfg)),
      t.fragments + [Fragment(library, phase, delta, cfg)])
  }

  /** Time since the library's last good time; a library seen for the first
      time was seeded with "now", so none has passed. */
  function Elapsed(store: map<string, int>, library: string, now: int): (e: Timedelta)
    ensures e == Timedelta(now - Seed(store, library, now)[library])
    ensures library !in store ==> e == Timedelta(0)
  {
    if library in store then Timedelta(now - store[library]) else Timedelta(0)
  }

  /** The state a run starts from. */
  function Init(loaded: map<string, int>): Tracker {
    Tracker(loaded, StatusOk, [])
  }

  /** All the lines, in order: the final state, or the error of the first line
      that does not read. */
  function Run(t: Tracker, lines: seq<string>, cfg: Config): Result<Tracker, string>
    decreases |lines|
  {
    if lines == [] then Ok(t)
    else
      match ParseLine(lines[0])
      case Err(e) => Err(e)
      case Ok(Comment) => Run(t, lines[1..], cfg)
      case Ok(Entry(library, phase)) => Run(Step(t, library, phase, cfg), lines[1..], cfg)
  }

  /** Running from line `i` is reading line `i`, then running from line `i + 1`. */
  lemma RunFrom(t: Tracker, lines: seq<string>, i: nat, cfg: Config)
    requires i < |lines|
    ensures ParseLine(lines[i]).Err? ==> Run(t, lines[i..], cfg) == Err(ParseLine(lines[i]).error)
    ensures ParseLine(lines[i]) == Ok(Comment) ==> Run(t, lines[i..], cfg) == Run(t, lines[i + 1..], cfg)
    ensures ParseLine(lines[i]).Ok? && ParseLine(lines[i]).value.Entry? ==>
      var entry := ParseLine(lines[i]).value;
      Run(t, lines[i..], cfg) == Run(Step(t, entry.library, entry.phase, cfg), lines[i + 1..], cfg)
  {
    assert lines[i..][0] == lines[i];
    assert lines[i..][1..] == lines[i + 1..];
  }

  /** One library line changes the store only at its own library, which is
      in the store afterwards; the status never improves and stays a Nagios
      status; exactly one fragment is added. */
  lemma StepEffect(t: Tracker, library: string, phase: string, cfg: Config)
    requires StatusOk <= t.status <= StatusCritical
    ensures var next := Step(t, library, phase, cfg);
      next.store.Keys == t.store.Keys + {library}
      && (forall k :: k in t.store && k != library ==> next.store[k] == t.store[k])
      && next.store[library] == (if phase == Synchronized || library !in t.store then cfg.now else t.store[library])
      && t.status <= next.status <= StatusCritical
      && next.fragments[..|t.fragments|] == t.fragments && |next.fragments| == |t.fragments| + 1
  {
    var next := Step(t, library, phase, cfg);
    assert next.fragments == t.fragments + [next.fragments[|t.fragments|]];
  }

  /** A phase that is neither `synchronized` nor transient makes the status
      CRITICAL at once. */
  lemma UnknownPhaseIsCritical(t: Tracker, library: string, phase: string, cfg: Config)
    requires StatusOk <= t.status <= StatusCritical
    requires phase != Synchronized && phase !in TransientPhases
    ensures Step(t, library, phase, cfg).status == StatusCritical
    ensures Step(t, library, phase, cfg).store == Seed(t.store, library, cfg.now)
    ensures Step(t, library, phase, cfg).fragments == t.fragments + [library + ": " + phase]
  {
  }

  /** A transient phase leaves a known library's time alone; more than
      `warning` minutes since it make the status at least WARNING, more than
      `critical` minutes CRITICAL, and the fragment shows the elapsed time,
      marked once either limit is passed. */
  lemma TransientEscalates(t: Tracker, library: string, phase: string, cfg: Config)
    requires StatusOk <= t.status <= StatusCritical
    requires library in t.store && phase in TransientPhases
    ensures var next, delta := Step(t, library, phase, cfg), Timedelta(cfg.now - t.store[library]);
      next.store == t.store
      && (delta.seconds > cfg.warningMinutes * 60 ==> next.status >= StatusWarning)
      && (delta.seconds > cfg.criticalMinutes * 60 ==> next.status == StatusCritical)
      && (delta.seconds <= cfg.warningMinutes * 60 && delta.seconds <= cfg.criticalMinutes * 60 ==> next.status == t.status)
      && next.fragments == t.fragments + [library + ": " + phase + " " + Icon(delta, cfg) + TimedeltaText(delta)]
  {
    assert Elapsed(t.store, library, cfg.now) == Timedelta(cfg.now - t.store[library]);
    assert phase != Synchronized;
  }

  /** A synchronized library's time becomes "now"; the status is kept. */
  lemma SynchronizedResets(t: Tracker, library: string, cfg: Config)
    requires StatusOk <= t.status <= StatusCritical
    ensures Step(t, library, Synchronized, cfg).store == t.store[library := cfg.now]
    ensures Step(t, library, Synchronized, cfg).status == t.status
    ensures Step(t, library, Synchronized, cfg).fragments == t.fragments + [library + ": " + Synchronized]
  {
  }

  /** `str(timedelta(0))`. */
  lemma ZeroTimedeltaText()
    ensures TimedeltaText(Timedelta(0)) == "0:00:00"
  {
    var td := Timedelta(0);
    assert td.seconds / 86400 == 0 && td.seconds % 86400 == 0;
    assert 0 / 3600 == 0 && 0 % 3600 / 60 == 0 && 0 % 60 == 0;
    assert TimedeltaText(td) == ClockFields(0, 0, 0);
    assert NatToString(0) == "0";
    assert seq(1, _ => '0') == "0";
    assert ZeroPad("0", 2) == "00";
  }

  /** A library seen for the first time in a transient phase has spent no time
      in it: with non-negative thresholds the status is kept and the fragment
      shows `0:00:00` without a mark. */
  lemma FirstSeenIsFresh(t: Tracker, library: string, phase: string, cfg: Config)
    requires StatusOk <= t.status <= StatusCritical
    requires library !in t.store && phase in TransientPhases
    requires cfg.warningMinutes >= 0 && cfg.criticalMinutes >= 0
    ensures Step(t, library, phase, cfg).store == t.store[library := cfg.now]
    ensures Step(t, library, phase, cfg).status == t.status
    ensures Step(t, library, phase, cfg).fragments == t.fragments + [library + ": " + phase + " " + "0:00:00"]
  {
    assert phase != Synchronized;
    assert Elapsed(t.store, library, cfg.now) == Timedelta(0);
    assert TransientSeverity(Timedelta(0), cfg) == StatusOk;
    assert Icon(Timedelta(0), cfg) == "";
    ZeroTimedeltaText();
    var head := library + ": " + phase + " ";
    assert Fragment(library, phase, Timedelta(0), cfg) == head + "" + "0:00:00";
    assert head + "" == head;
  }

  /** The libraries the library lines name. */
  function Libraries(lines: seq<string>): set<string>
    decreases |lines|
  {
    if lines == [] then {}
    else
      var rest := Libraries(lines[1..]);
      match ParseLine(lines[0])
      case Ok(Entry(library, _)) => {library} + rest
      case _ => rest
  }

  /** The number of library lines. */
  function EntryCount(lines: seq<string>): nat
    decreases |lines|
  {
    if lines == [] then 0
    else
      var rest := EntryCount(lines[1..]);
      match ParseLine(lines[0])
      case Ok(Entry(_, _)) => 1 + rest
      case _ => rest
  }

  /** Every line reads. */
  predicate AllRead(lines: seq<string>) {
    forall i :: 0 <= i < |lines| ==> ParseLine(lines[i]).Ok?
  }

  /** A run succeeds exactly when every line reads. */
  lemma {:induction false} RunOkIff(t: Tracker, lines: seq<string>, cfg: Config)
    ensures Run(t, lines, cfg).Ok? <==> AllRead(lines)
    decreases |lines|
  {
    if lines != [] {
      assert forall j :: 0 <= j < |lines| - 1 ==> lines[1..][j] == lines[j + 1];
      assert AllRead(lines) <==> ParseLine(lines[0]).Ok? && AllRead(lines[1..]);
      match ParseLine(lines[0]) {
        case Err(_) =>
        case Ok(Comment) => RunOkIff(t, lines[1..], cfg);
        case Ok(Entry(library, phase)) => RunOkIff(Step(t, library, phase, cfg), lines[1..], cfg);
      }
    }
  }

  /** A run fails with the error of the first line that does not read. */
  lemma RunFirstError(t: Tracker, lines: seq<string>, i: nat, cfg: Config)
    requires i < |lines| && ParseLine(lines[i]).Err?
    requires forall j :: 0 <= j < i ==> ParseLine(lines[j]).Ok?
    ensures Run(t, lines, cfg) == Err(ParseLine(lines[i]).error)
  {
    var before, after := lines[..i], lines[i..];
    assert lines == before + after;
    assert AllRead(before) by {
      forall j | 0 <= j < |before| ensures ParseLine(before[j]).Ok? {
        assert before[j] == lines[j];
      }
    }
    RunOkIff(t, before, cfg);
    RunConcat(t, before, after, cfg);
    assert after[0] == lines[i];
    assert Run(Run(t, before, cfg).value, after, cfg) == Err(ParseLine(lines[i]).error);
  }

  /** A successful run never improves the status it started from and ends on
      a Nagios status. */
  lemma {:induction false} RunStatus(t: Tracker, lines: seq<string>, cfg: Config)
    requires StatusOk <= t.status <= StatusCritical
    requires Run(t, lines, cfg).Ok?
    ensures t.status <= Run(t, lines, cfg).value.status <= StatusCritical
    decreases |lines|
  {
    if lines != [] {
      match ParseLine(lines[0]) {
        case Ok(Comment) => RunStatus(t, lines[1..], cfg);
        case Ok(Entry(library, phase)) =>
          StepEffect(t, library, phase, cfg);
          RunStatus(Step(t, library, phase, cfg), lines[1..], cfg);
      }
    }
  }

  /** After a successful run the store holds the loaded libraries and every
      library named, and a loaded library that is not named keeps its time:
      nothing is ever removed. */
  lemma {:induction false} RunStore(t: Tracker, lines: seq<string>, cfg: Config)
    requires StatusOk <= t.status <= StatusCritical
    requires Run(t, lines, cfg).Ok?
    ensures var store := Run(t, lines, cfg).value.store;
      store.Keys == t.store.Keys + Libraries(lines)
      && forall k :: k in t.store && k !in Libraries(lines) ==> store[k] == t.store[k]
    decreases |lines|
  {
    if lines != [] {
      match ParseLine(lines[0]) {
        case Ok(Comment) => RunStore(t, lines[1..], cfg);
        case Ok(Entry(library, phase)) =>
          StepEffect(t, library, phase, cfg);
          RunStore(Step(t, library, phase, cfg), lines[1..], cfg);
      }
    }
  }

  /** A successful run adds one fragment per library line after the earlier
      ones. */
  lemma {:induction false} RunFragments(t: Tracker, lines: seq<string>, cfg: Config)
    requires StatusOk <= t.status <= StatusCritical
    requires Run(t, lines, cfg).Ok?
    ensures var fragments := Run(t, lines, cfg).value.fragments;
      |fragments| == |t.fragments| + EntryCount(lines) && t.fragments <= fragments
    decreases |lines|
  {
    if lines != [] {
      match ParseLine(lines[0]) {
        case Ok(Comment) => RunFragments(t, lines[1..], cfg);
        case Ok(Entry(library, phase)) =>
          var next := Step(t, library, phase, cfg);
          StepEffect(t, library, phase, cfg);
          RunFragments(next, lines[1..], cfg);
          assert t.fragments <= next.fragments;
      }
    }
  }

  /** The case of `UnknownPhaseMakesCritical` where the line comes first. */
  lemma UnknownPhaseFirst(t: Tracker, lines: seq<string>, library: string, phase: string, cfg: Config)
    requires StatusOk <= t.status <= StatusCritical
    requires lines != [] && ParseLine(lines[0]) == Ok(Entry(library, phase))
    requires phase != Synchronized && phase !in TransientPhases
    requires Run(t, lines, cfg).Ok?
    ensures Run(t, lines, cfg).value.status == StatusCritical
  {
    var next := Step(t, library, phase, cfg);
    assert Run(t, lines, cfg) == Run(next, lines[1..], cfg);
    UnknownPhaseIsCritical(t, library, phase, cfg);
    RunStatus(next, lines[1..], cfg);
  }

  /** A library line whose phase is unknown makes the outcome of a successful
      run CRITICAL, whatever comes after it. */
  lemma UnknownPhaseMakesCritical(t: Tracker, lines: seq<string>, i: nat, library: string, phase: string, cfg: Config)
    requires StatusOk <= t.status <= StatusCritical
    requires i < |lines| && ParseLine(lines[i]) == Ok(Entry(library, phase))
    requires phase != Synchronized && phase !in TransientPhases
    requires Run(t, lines, cfg).Ok?
    ensures Run(t, lines, cfg).value.status == StatusCritical
  {
    var before, after := lines[..i], lines[i..];
    assert lines == before + after;
    RunConcat(t, before, after, cfg);
    var head := Run(t, before, cfg);
    assert head.Ok?;
    var middle := head.value;
    assert Run(middle, after, cfg) == Run(t, lines, cfg);
    RunStatus(t, before, cfg);
    assert after[0] == lines[i];
    UnknownPhaseFirst(middle, after, library, phase, cfg);
  }

  /** Running two blocks of lines is running the first, then the second from
      where the first left off; an error in the first ends the run. */
  lemma {:induction false} RunConcat(t: Tracker, first: seq<string>, second: seq<string>, cfg: Config)
    ensures Run(t, first + second, cfg) ==
      match Run(t, first, cfg)
      case Ok(u) => Run(u, second, cfg)
      case Err(e) => Err(e)
    decreases |first|
  {
    if first == [] {
      assert first + second == second;
    } else {
      var lines := first + second;
      assert lines[0] == first[0] && lines[1..] == first[1..] + second;
      match ParseLine(first[0]) {
        case Err(_) =>
        case Ok(Comment) => RunConcat(t, first[1..], second, cfg);
        case Ok(Entry(library, phase)) => RunConcat(Step(t, library, phase, cfg), first[1..], second, cfg);
      }
    }
  }

  /** The lines without the comments. */
  function DropComments(lines: seq<string>): (r: seq<string>)
    ensures forall i :: 0 <= i < |r| ==> !IsComment(r[i])
    ensures |r| <= |lines|
    decreases |lines|
  {
    if lines == [] then []
    else if IsComment(lines[0]) then DropComments(lines[1..])
    else [lines[0]] + DropComments(lines[1..])
  }

  /** Comment lines have no effect on a run. */
  lemma {:induction false} RunIgnoresComments(t: Tracker, lines: seq<string>, cfg: Config)
    ensures Run(t, lines, cfg) == Run(t, DropComments(lines), cfg)
    decreases |lines|
  {
    if lines != [] {
      var rest := DropComments(lines[1..]);
      if IsComment(lines[0]) {
        RunIgnoresComments(t, lines[1..], cfg);
      } else {
        var kept := [lines[0]] + rest;
        assert kept[0] == lines[0] && kept[1..] == rest;
        match ParseLine(lines[0]) {
          case Err(_) =>
          case Ok(Comment) =>
          case Ok(Entry(library, phase)) => RunIgnoresComments(Step(t, library, phase, cfg), lines[1..], cfg);
        }
      }
    }
  }

  /**
   * The transient branch as the probe writes it: past the warning threshold
   * the status becomes WARNING unless it is already CRITICAL, past the
   * critical threshold it becomes CRITICAL, and either marks the line.
   */
  method Escalate(status: int, timeDelta: Timedelta, cfg: Config) returns (newStatus: int, icon: string)
    requires StatusOk <= status <= StatusCritical
    ensures newStatus == MaxStatus(status, TransientSeverity(timeDelta, cfg))
    ensures icon == Icon(timeDelta, cfg)
  {
    newStatus := status;
    icon := "";
    if timeDelta.seconds > cfg.warningMinutes * 60 {
      icon := "(!)";
      if newStatus != StatusCritical {
        newStatus := StatusWarning;
      }
    }
    if timeDelta.seconds > cfg.criticalMinutes * 60 {
      icon := "(!)";
      newStatus := StatusCritical;
    }
  }

  /**
   * The body of the loop for a library line: seed, separate the fragment
   * from the previous one with `"; "` when the text is not empty, then
   * dispatch on the phase. The text is the `"; "`-join of the fragments.
   */
  method ProcessEntry(store: map<string, int>, status: int, text: string, library: string, phase: string,
                      cfg: Config, ghost fragments: seq<string>)
    returns (newStore: map<string, int>, newStatus: int, newText: string)
    requires StatusOk <= status <= StatusCritical
    requires library != []
    requires text == Join(fragments, "; ") && (text == [] <==> fragments == [])
    ensures var t := Step(Tracker(store, status, fragments), library, phase, cfg);
      newStore == t.store && newStatus == t.status && newText == Join(t.fragments, "; ")
    ensures newText != []
  {
    newStore := store;
    if library !in newStore {
      newStore := newStore[library := cfg.now];
    }
    ghost var seeded := newStore;
    assert seeded == Seed(store, library, cfg.now);
    var fragment;
    newStore, newStatus, fragment := Dispatch(newStore, status, library, phase, cfg);
    newText := if text != "" then text + "; " else text;
    newText := newText + fragment;
    assert Elapsed(store, library, cfg.now) == Timedelta(cfg.now - seeded[library]);
    assert Step(Tracker(store, status, fragments), library, phase, cfg).fragments == fragments + [fragment];
    JoinNext(fragments, fragment, text);
  }

  /** The phase dispatch of a library line whose library is in the store. */
  method Dispatch(store: map<string, int>, status: int, library: string, phase: string, cfg: Config)
    returns (newStore: map<string, int>, newStatus: int, fragment: string)
    requires StatusOk <= status <= StatusCritical
    requires library in store
    ensures var delta := Timedelta(cfg.now - store[library]);
      newStore == (if phase == Synchronized then store[library := cfg.now] else store)
      && newStatus == MaxStatus(status, Contribution(phase, delta, cfg))
      && fragment == Fragment(library, phase, delta, cfg)
  {
    newStore := store;
    newStatus := status;
    if phase == Synchronized {
      fragment := library + ": " + phase;
      newStore := newStore[library := cfg.now];
    } else if phase in TransientPhases {
      var timeDelta := Timedelta(cfg.now - newStore[library]);
      var icon;
      newStatus, icon := Escalate(newStatus, timeDelta, cfg);
      fragment := library + ": " + phase + " " + icon + TimedeltaText(timeDelta);
    } else {
      newStatus := StatusCritical;
      fragment := library + ": " + phase;
    }
  }

  /** Adding a fragment the way the loop does (`"; "` only after a non-empty
      text) keeps the text equal to the join of the fragments. */
  lemma JoinNext(fragments: seq<string>, fragment: string, text: string)
    requires text == Join(fragments, "; ") && (text == [] <==> fragments == [])
    ensures Join(fragments + [fragment], "; ") == (if text != "" then text + "; " else text) + fragment
  {
    if fragments != [] {
      JoinAppend(fragments, fragment, "; ");
    } else {
      assert fragments + [fragment] == [fragment];
    }
  }

  /**
   * The probe's `main`: the loop over the status lines, then the store to
   * save. An exception anywhere (an empty or one-word line) discards the
   * message, reports UNKNOWN with `"Unhandled exception: ..."` and saves
   * nothing.
   */
  method CheckSync(loaded: map<string, int>, lines: seq<string>, cfg: Config)
    returns (exitStatus: int, exitStatusText: string, saved: Option<map<string, int>>)
    ensures match Run(Init(loaded), lines, cfg)
      case Ok(t) =>
        exitStatus == t.status && exitStatusText == Join(t.fragments, "; ") && saved == Some(t.store)
      case Err(e) =>
        exitStatus == StatusUnknown && exitStatusText == "Unhandled exception: " + e && saved == None
  {
    var store := loaded;
    var status := StatusOk;
    var text := "";
    ghost var t := Init(loaded);
    var i := 0;
    while i < |lines|
      invariant 0 <= i <= |lines|
      invariant Run(Init(loaded), lines, cfg) == Run(t, lines[i..], cfg)
      invariant store == t.store && status == t.status
      invariant StatusOk <= status <= StatusCritical
      invariant text == Join(t.fragments, "; ") && (text == [] <==> t.fragments == [])
    {
      RunFrom(t, lines, i, cfg);
      var parsed := ParseLine(lines[i]);
      match parsed {
        case Err(e) =>
          assert Run(Init(loaded), lines, cfg) == Err(e);
          return StatusUnknown, "Unhandled exception: " + e, None;
        case Ok(Comment) =>
          assert Run(Init(loaded), lines, cfg) == Run(t, lines[i + 1..], cfg);
        case Ok(Entry(library, phase)) =>
          assert Run(Init(loaded), lines, cfg) == Run(Step(t, library, phase, cfg), lines[i + 1..], cfg);
          store, status, text := ProcessEntry(store, status, text, library, phase, cfg, t.fragments);
          t := Step(t, library, phase, cfg);
      }
      i := i + 1;
    }
    assert lines[i..] == [];
    return status, text, Some(store);
  }
}
