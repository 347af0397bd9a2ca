/** The record of who holds the exclusive lock (src/exclusive.rs lines 311-419). */
module Holder {
  import opened Decimal
  import opened Text
  import opened Timestamps
  import opened Wrappers

  const U32_VALUES := 0x1_0000_0000
  type u32 = n: nat | n < U32_VALUES

  /** Nanoseconds from the epoch, negative before it. */
  type Time = int

  const NANOS_PER_SECOND := 1_000_000_000

  datatype HolderInfo = HolderInfo(pid: u32, hostname: string, project: string, binary: string, benchmark: string,
                                   activity: string, start: Time, heartbeat: Time, eta: Option<Time>)

  /** How times are written and read, in whole seconds. */
  datatype Clock = Clock(format: nat -> string, parse: string -> Option<nat>)

  /** `None` stands for the texts of later times, which are not read. */
  ghost predicate Sound(c: Clock) { forall secs: nat :: SoundAt(c, secs) }

  predicate SoundAt(c: Clock, secs: nat) {
    && c.parse(c.format(secs)) == (if secs < YEAR_10000 then Some(secs) else None)
    && Clean(c.format(secs)) && c.format(secs) != ""
  }

  /** The clock of the program. */
  function IsoClock(): Clock { Clock((secs: nat) => Format(secs), (text: string) => ParseIso(text)) }

  /** Without a line break and without white space at the end. */
  predicate Clean(v: string) { '\n' !in v && (v != "" ==> !IsWhitespace(v[|v| - 1])) }

  // ----- writing -----

  /** Whole seconds since the epoch, 0 before it. */
  function Seconds(t: Time): nat { if t < 0 then 0 else t / NANOS_PER_SECOND }

  const HEADER := "zenbench-exclusive v1"

  datatype Key = KPid | KHostname | KProject | KBinary | KBenchmark | KActivity | KStart | KHeartbeat | KEta | KOther

  function NameOf(key: Key): string {
    match key
    case KPid => "pid"
    case KHostname => "hostname"
    case KProject => "project"
    case KBinary => "binary"
    case KBenchmark => "benchmark"
    case KActivity => "activity"
    case KStart => "start"
    case KHeartbeat => "heartbeat"
    case KEta => "eta"
    case KOther => "eof"
  }

  function ValueOf(c: Clock, info: HolderInfo, key: Key): string {
    match key
    case KPid => Print(info.pid)
    case KHostname => info.hostname
    case KProject => info.project
    case KBinary => info.binary
    case KBenchmark => info.benchmark
    case KActivity => info.activity
    case KStart => c.format(Seconds(info.start))
    case KHeartbeat => c.format(Seconds(info.heartbeat))
    case KEta => if info.eta.Some? then c.format(Seconds(info.eta.value)) else ""
    case KOther => "1"
  }

  /** The order of the lines after the header. */
  const KEYS: seq<Key> := [KPid, KHostname, KProject, KBinary, KBenchmark, KActivity, KStart, KHeartbeat, KEta, KOther]

  function Line(c: Clock, info: HolderInfo, key: Key): string { NameOf(key) + "=" + ValueOf(c, info, key) }

  function LinesFor(c: Clock, info: HolderInfo, keys: seq<Key>): (r: seq<string>)
    ensures |r| == |keys| && forall k :: 0 <= k < |r| ==> r[k] == Line(c, info, keys[k])
  {
    seq(|keys|, k requires 0 <= k < |keys| => Line(c, info, keys[k]))
  }

  function Terminated(lines: seq<string>): string {
    if lines == [] then "" else lines[0] + "\n" + Terminated(lines[1..])
  }

  function HolderText(c: Clock, info: HolderInfo): string { Terminated([HEADER] + LinesFor(c, info, KEYS)) }

  lemma {:induction false} TerminatedAppend(lines: seq<string>, line: string)
    ensures Terminated(lines + [line]) == Terminated(lines) + (line + "\n")
    decreases |lines|
  {
    var more := lines + [line];
    if lines == [] {
      assert more[1..] == [];
    } else {
      assert more[1..] == lines[1..] + [line] && more[0] == lines[0];
      TerminatedAppend(lines[1..], line);
    }
  }

  lemma LinesForAppend(c: Clock, info: HolderInfo, keys: seq<Key>, key: Key)
    ensures LinesFor(c, info, keys + [key]) == LinesFor(c, info, keys) + [Line(c, info, key)]
  {
  }

  lemma LinesGrow(c: Clock, info: HolderInfo, k: nat)
    requires k < |KEYS|
    ensures [HEADER] + LinesFor(c, info, KEYS[..k + 1]) == [HEADER] + LinesFor(c, info, KEYS[..k]) + [Line(c, info, KEYS[k])]
  {
    var before, after := KEYS[..k], KEYS[..k + 1];
    assert after == before + [KEYS[k]];
    LinesForAppend(c, info, before, KEYS[k]);
  }

  /** Pushes one line after the other. */
  method WriteHolder(c: Clock, info: HolderInfo) returns (body: string)
    ensures body == HolderText(c, info)
  {
    body := HEADER + "\n";
    assert Terminated([HEADER]) == HEADER + "\n" + Terminated([HEADER][1..]);
    ghost var lines := [HEADER] + LinesFor(c, info, []);
    assert lines == [HEADER];
    for k := 0 to |KEYS|
      invariant body == Terminated([HEADER] + LinesFor(c, info, KEYS[..k]))
    {
      var line := Line(c, info, KEYS[k]);
      TerminatedAppend([HEADER] + LinesFor(c, info, KEYS[..k]), line);
      LinesGrow(c, info, k);
      body := body + (line + "\n");
    }
    assert KEYS[..|KEYS|] == KEYS;
  }

  // ----- reading -----

  /** `lines()`: the parts between line feeds, without an empty part at the end. */
  function Lines(s: string): (r: seq<string>)
    ensures forall k :: 0 <= k < |r| ==> '\n' !in r[k]
    decreases |s|
  {
    match SplitOnce(s, '\n')
    case Some((first, rest)) => [first] + Lines(rest)
    case None => if s == "" then [] else [s]
  }

  function KeyOf(name: string): Key {
    if name == "pid" then KPid
    else if name == "hostname" then KHostname
    else if name == "project" then KProject
    else if name == "binary" then KBinary
    else if name == "benchmark" then KBenchmark
    else if name == "activity" then KActivity
    else if name == "start" then KStart
    else if name == "heartbeat" then KHeartbeat
    else if name == "eta" then KEta
    else KOther
  }

  function TimeOf(secs: nat): Time { secs * NANOS_PER_SECOND }

  function Set(c: Clock, info: HolderInfo, key: Key, v: string): HolderInfo {
    match key
    case KPid => info.(pid := var n := Parse(v, U32_VALUES); if n.Some? then n.value else 0)
    case KHostname => info.(hostname := v)
    case KProject => info.(project := v)
    case KBinary => info.(binary := v)
    case KBenchmark => info.(benchmark := v)
    case KActivity => info.(activity := v)
    case KStart => if c.parse(v).Some? then info.(start := TimeOf(c.parse(v).value)) else info
    case KHeartbeat => if c.parse(v).Some? then info.(heartbeat := TimeOf(c.parse(v).value)) else info
    case KEta => if v == "" then info
                 else info.(eta := if c.parse(v).Some? then Some(TimeOf(c.parse(v).value)) else None)
    case KOther => info
  }

  datatype Reading = Reading(info: HolderInfo, versionSeen: bool)

  /** One line of the file. */
  function Apply(c: Clock, r: Reading, raw: string): Reading {
    var line := TrimEnd(raw);
    if line == HEADER then r.(versionSeen := true)
    else match SplitOnce(line, '=')
      case None => r
      case Some((k, v)) => r.(info := Set(c, r.info, KeyOf(k), v))
  }

  function ApplyAll(c: Clock, r: Reading, lines: seq<string>): Reading
    decreases |lines|
  {
    if lines == [] then r else ApplyAll(c, Apply(c, r, lines[0]), lines[1..])
  }

  const BLANK := Reading(HolderInfo(0, "", "", "", "", "", 0, 0, None), false)

  function Restored(c: Clock, buf: string): Option<HolderInfo> {
    if !Contains(buf, "eof=1") then None
    else
      var r := ApplyAll(c, BLANK, Lines(buf));
      if r.versionSeen then Some(r.info) else None
  }

  /** `file` is `None` when there is no file. */
  method ReadHolder(c: Clock, file: Option<string>) returns (info: Option<HolderInfo>)
    ensures info == if file.None? then None else Restored(c, file.value)
  {
    if file.None? { return None; }
    if !Contains(file.value, "eof=1") { return None; }
    var r := BLANK;
    var lines := Lines(file.value);
    var k := 0;
    assert lines[0..] == lines;
    while k < |lines|
      invariant 0 <= k <= |lines|
      invariant ApplyAll(c, BLANK, lines) == ApplyAll(c, r, lines[k..])
    {
      assert lines[k..][0] == lines[k] && lines[k..][1..] == lines[k + 1..];
      r := Apply(c, r, lines[k]);
      k := k + 1;
    }
    if !r.versionSeen { return None; }
    return Some(r.info);
  }

  // ----- restoring what was written -----

  predicate CleanInfo(info: HolderInfo) {
    Clean(info.hostname) && Clean(info.project) && Clean(info.binary) && Clean(info.benchmark) && Clean(info.activity)
  }

  lemma {:induction false} LinesOfTerminated(lines: seq<string>)
    requires forall k :: 0 <= k < |lines| ==> '\n' !in lines[k]
    ensures Lines(Terminated(lines)) == lines
    decreases |lines|
  {
    if lines != [] {
      assert Terminated(lines) == lines[0] + ['\n'] + Terminated(lines[1..]);
      SplitOnceOf(lines[0], '\n', Terminated(lines[1..]));
      LinesOfTerminated(lines[1..]);
    }
  }

  lemma KeyOfName(key: Key)
    ensures KeyOf(NameOf(key)) == key && '=' !in NameOf(key) && '\n' !in NameOf(key) && NameOf(key) != ""
  {
    match key
    case KPid =>
    case KHostname =>
    case KProject =>
    case KBinary =>
    case KBenchmark =>
    case KActivity =>
    case KStart =>
    case KHeartbeat =>
    case KEta =>
    case KOther =>
  }

  lemma HeaderHasNoEquals()
    ensures '=' !in HEADER && '\n' !in HEADER && TrimEnd(HEADER) == HEADER
  {
    assert HEADER[|HEADER| - 1] == '1';
  }

  lemma ApplyLine(c: Clock, r: Reading, key: Key, v: string)
    requires Clean(v)
    ensures Apply(c, r, NameOf(key) + "=" + v) == r.(info := Set(c, r.info, key, v))
    ensures '\n' !in NameOf(key) + "=" + v
  {
    var line := NameOf(key) + "=" + v;
    KeyOfName(key);
    HeaderHasNoEquals();
    assert line[|NameOf(key)|] == '=';
    assert line[|line| - 1] == if v == "" then '=' else v[|v| - 1];
    assert TrimEnd(line) == line;
    SplitOnceOf(NameOf(key), '=', v);
  }

  /** What reading leaves of the times: whole seconds from the epoch to the end of year 9999. */
  function Settled(t: Time): Time { if Seconds(t) < YEAR_10000 then TimeOf(Seconds(t)) else 0 }

  function Normalized(info: HolderInfo): HolderInfo {
    info.(start := Settled(info.start), heartbeat := Settled(info.heartbeat),
          eta := if info.eta.Some? && Seconds(info.eta.value) < YEAR_10000 then Some(TimeOf(Seconds(info.eta.value))) else None)
  }

  function SetAll(c: Clock, info: HolderInfo, from: HolderInfo, keys: seq<Key>): HolderInfo
    decreases |keys|
  {
    if keys == [] then info else SetAll(c, Set(c, info, keys[0], ValueOf(c, from, keys[0])), from, keys[1..])
  }

  lemma DigitsAreClean(s: string)
    requires AllDigits(s)
    ensures Clean(s)
  {
    assert s != "" ==> IsDigit(s[|s| - 1]);
  }

  lemma CleanAfter(a: string, b: string)
    requires Clean(a) && Clean(b) && b != ""
    ensures Clean(a + b) && a + b != ""
  {
    assert (a + b)[|a + b| - 1] == b[|b| - 1];
  }

  /** A numeral, a separator and more. */
  lemma CleanField(n: nat, w: nat, c: string, rest: string)
    requires Clean(c) && Clean(rest) && rest != ""
    ensures Clean(Padded(n, w) + (c + rest)) && Padded(n, w) + (c + rest) != ""
  {
    DigitsAreClean(Padded(n, w));
    CleanAfter(c, rest);
    CleanAfter(Padded(n, w), c + rest);
  }

  lemma ShownTimeIsClean(f: Calendar.Fields)
    ensures Clean(ShowTime(f)) && ShowTime(f) != ""
  {
    var seconds := Padded(f.s, 2) + "Z";
    DigitsAreClean(Padded(f.s, 2));
    CleanAfter(Padded(f.s, 2), "Z");
    CleanField(f.mi, 2, ":", seconds);
    CleanField(f.h, 2, ":", Padded(f.mi, 2) + (":" + seconds));
  }

  lemma ShownIsClean(f: Calendar.Fields)
    ensures Clean(Show(f)) && Show(f) != ""
  {
    ShownTimeIsClean(f);
    var time := ShowTime(f);
    var day := Padded(f.date.d, 2) + ("T" + time);
    CleanField(f.date.d, 2, "T", time);
    CleanField(f.date.m, 2, "-", day);
    CleanField(f.date.y, 4, "-", Padded(f.date.m, 2) + ("-" + day));
  }

  lemma StampIsSound(secs: nat)
    ensures SoundAt(IsoClock(), secs)
  {
    ParseInvertsFormat(secs);
    ShownIsClean(Calendar.FieldsOf(secs));
  }

  lemma IsoClockIsSound()
    ensures Sound(IsoClock())
  {
    forall secs: nat ensures SoundAt(IsoClock(), secs) { StampIsSound(secs); }
  }

  lemma ValuesAreClean(c: Clock, info: HolderInfo, key: Key)
    requires Sound(c) && CleanInfo(info)
    ensures Clean(ValueOf(c, info, key))
  {
    DigitsAreClean(Print(info.pid));
    assert SoundAt(c, Seconds(info.start)) && SoundAt(c, Seconds(info.heartbeat));
    assert info.eta.Some? ==> SoundAt(c, Seconds(info.eta.value));
  }

  lemma {:induction false} ApplyLinesFor(c: Clock, r: Reading, info: HolderInfo, keys: seq<Key>)
    requires Sound(c) && CleanInfo(info)
    ensures ApplyAll(c, r, LinesFor(c, info, keys)) == r.(info := SetAll(c, r.info, info, keys))
    ensures forall k :: 0 <= k < |keys| ==> '\n' !in LinesFor(c, info, keys)[k]
    decreases |keys|
  {
    if keys != [] {
      var v := ValueOf(c, info, keys[0]);
      ValuesAreClean(c, info, keys[0]);
      ApplyLine(c, r, keys[0], v);
      var next := r.(info := Set(c, r.info, keys[0], v));
      ApplyLinesFor(c, next, info, keys[1..]);
      assert LinesFor(c, info, keys)[1..] == LinesFor(c, info, keys[1..]);
    }
  }

  lemma SetPid(c: Clock, i: HolderInfo, from: HolderInfo)
    ensures Set(c, i, KPid, ValueOf(c, from, KPid)) == i.(pid := from.pid)
  {
    ParsePrint(from.pid, U32_VALUES);
  }

  lemma SetStart(c: Clock, i: HolderInfo, from: HolderInfo)
    requires Sound(c) && i.start == 0
    ensures Set(c, i, KStart, ValueOf(c, from, KStart)) == i.(start := Settled(from.start))
  {
    assert SoundAt(c, Seconds(from.start));
  }

  lemma SetHeartbeat(c: Clock, i: HolderInfo, from: HolderInfo)
    requires Sound(c) && i.heartbeat == 0
    ensures Set(c, i, KHeartbeat, ValueOf(c, from, KHeartbeat)) == i.(heartbeat := Settled(from.heartbeat))
  {
    assert SoundAt(c, Seconds(from.heartbeat));
  }

  lemma SetEta(c: Clock, i: HolderInfo, from: HolderInfo)
    requires Sound(c) && i.eta == None
    ensures Set(c, i, KEta, ValueOf(c, from, KEta)) == i.(eta := Normalized(from).eta)
  {
    assert from.eta.Some? ==> SoundAt(c, Seconds(from.eta.value));
  }

  lemma SetFirst(c: Clock, i: HolderInfo, from: HolderInfo, k: nat, key: Key, next: HolderInfo)
    requires k < |KEYS| && KEYS[k] == key && Set(c, i, key, ValueOf(c, from, key)) == next
    ensures SetAll(c, i, from, KEYS[k..]) == SetAll(c, next, from, KEYS[k + 1..])
  {
    assert KEYS[k..][1..] == KEYS[k + 1..];
  }

  lemma SettingPlace(c: Clock, i: HolderInfo, info: HolderInfo)
    ensures SetAll(c, i, info, KEYS[1..])
      == SetAll(c, i.(hostname := info.hostname, project := info.project), info, KEYS[3..])
  {
    var i1 := i.(hostname := info.hostname);
    SetFirst(c, i, info, 1, KHostname, i1);
    SetFirst(c, i1, info, 2, KProject, i1.(project := info.project));
  }

  lemma SettingWork(c: Clock, i: HolderInfo, info: HolderInfo)
    ensures SetAll(c, i, info, KEYS[3..])
      == SetAll(c, i.(binary := info.binary, benchmark := info.benchmark, activity := info.activity), info, KEYS[6..])
  {
    var i3 := i.(binary := info.binary);
    var i4 := i3.(benchmark := info.benchmark);
    SetFirst(c, i, info, 3, KBinary, i3);
    SetFirst(c, i3, info, 4, KBenchmark, i4);
    SetFirst(c, i4, info, 5, KActivity, i4.(activity := info.activity));
  }

  lemma SettingTimes(c: Clock, i: HolderInfo, info: HolderInfo)
    requires Sound(c) && i.start == 0 && i.heartbeat == 0 && i.eta == None
    ensures SetAll(c, i, info, KEYS[6..])
      == i.(start := Settled(info.start), heartbeat := Settled(info.heartbeat), eta := Normalized(info).eta)
  {
    var i6 := i.(start := Settled(info.start));
    var i7 := i6.(heartbeat := Settled(info.heartbeat));
    var i8 := i7.(eta := Normalized(info).eta);
    SetStart(c, i, info);
    SetHeartbeat(c, i6, info);
    SetEta(c, i7, info);
    SetFirst(c, i, info, 6, KStart, i6);
    SetFirst(c, i6, info, 7, KHeartbeat, i7);
    SetFirst(c, i7, info, 8, KEta, i8);
    SetFirst(c, i8, info, 9, KOther, i8);
    assert KEYS[10..] == [];
  }

  /** The nine fields are set one after the other. */
  lemma SettingAll(c: Clock, info: HolderInfo)
    requires Sound(c)
    ensures SetAll(c, BLANK.info, info, KEYS) == Normalized(info)
  {
    var i0 := BLANK.info.(pid := info.pid);
    SetPid(c, BLANK.info, info);
    assert KEYS[0..] == KEYS;
    SetFirst(c, BLANK.info, info, 0, KPid, i0);
    SettingPlace(c, i0, info);
    SettingWork(c, i0.(hostname := info.hostname, project := info.project), info);
    SettingTimes(c, i0.(hostname := info.hostname, project := info.project, binary := info.binary, benchmark := info.benchmark,
                     activity := info.activity), info);
  }

  lemma MarkerIsThere(c: Clock, info: HolderInfo)
    ensures Contains(HolderText(c, info), "eof=1")
  {
    var front := [HEADER] + LinesFor(c, info, KEYS[..9]);
    TerminatedAppend(front, "eof=1");
    assert Line(c, info, KOther) == "eof=1";
    assert KEYS[..9] + [KOther] == KEYS;
    assert [HEADER] + LinesFor(c, info, KEYS) == front + ["eof=1"];
    var text := HolderText(c, info);
    assert text == Terminated(front) + ("eof=1" + "\n");
    assert text[|Terminated(front)|..] == "eof=1" + "\n";
  }

  lemma LinesReadBack(c: Clock, info: HolderInfo)
    requires Sound(c) && CleanInfo(info)
    ensures Lines(HolderText(c, info)) == [HEADER] + LinesFor(c, info, KEYS)
  {
    ApplyLinesFor(c, BLANK, info, KEYS);
    HeaderHasNoEquals();
    var lines := [HEADER] + LinesFor(c, info, KEYS);
    assert forall k :: 0 < k < |lines| ==> lines[k] == LinesFor(c, info, KEYS)[k - 1];
    LinesOfTerminated(lines);
  }

  lemma CleanIsRestored(c: Clock, info: HolderInfo)
    requires Sound(c) && CleanInfo(info)
    ensures Restored(c, HolderText(c, info)) == Some(Normalized(info))
  {
    MarkerIsThere(c, info);
    LinesReadBack(c, info);
    HeaderHasNoEquals();
    var rest := LinesFor(c, info, KEYS);
    var seen := BLANK.(versionSeen := true);
    assert Apply(c, BLANK, HEADER) == seen;
    assert ([HEADER] + rest)[1..] == rest;
    ApplyLinesFor(c, seen, info, KEYS);
    SettingAll(c, info);
  }

  lemma SetKeepsClean(c: Clock, info: HolderInfo, key: Key, v: string)
    requires CleanInfo(info) && Clean(v)
    ensures CleanInfo(Set(c, info, key, v))
  {
  }

  lemma SuffixIsClean(line: string, k: string, v: string)
    requires Clean(line) && line == k + ['='] + v
    ensures Clean(v)
  {
    assert forall i :: 0 <= i < |v| ==> v[i] == line[|k| + 1 + i];
  }

  lemma ApplyKeepsClean(c: Clock, r: Reading, raw: string)
    requires CleanInfo(r.info) && '\n' !in raw
    ensures CleanInfo(Apply(c, r, raw).info)
  {
    var line := TrimEnd(raw);
    assert Clean(line);
    var parts := SplitOnce(line, '=');
    if parts.Some? {
      SuffixIsClean(line, parts.value.0, parts.value.1);
      SetKeepsClean(c, r.info, KeyOf(parts.value.0), parts.value.1);
    }
  }

  lemma {:induction false} ReadingIsClean(c: Clock, r: Reading, lines: seq<string>)
    requires CleanInfo(r.info) && forall k :: 0 <= k < |lines| ==> '\n' !in lines[k]
    ensures CleanInfo(ApplyAll(c, r, lines).info)
    decreases |lines|
  {
    if lines != [] {
      ApplyKeepsClean(c, r, lines[0]);
      ReadingIsClean(c, Apply(c, r, lines[0]), lines[1..]);
    }
  }

  /** Reading back what was written restores every field, with times at whole seconds, exactly if
      no text field has a line break in it or white space at its end. */
  lemma RestoredExactlyWhenClean(info: HolderInfo)
    ensures Restored(IsoClock(), HolderText(IsoClock(), info)) == Some(Normalized(info)) <==> CleanInfo(info)
  {
    var c := IsoClock();
    IsoClockIsSound();
    if CleanInfo(info) {
      CleanIsRestored(c, info);
    } else {
      ReadingIsClean(c, BLANK, Lines(HolderText(c, info)));
    }
  }

  /** Times are restored as they were exactly if they are whole seconds from the epoch to the end
      of year 9999. */
  lemma TimesRestoredExactlyWhen(t: Time)
    ensures Settled(t) == t <==> t % 1_000_000_000 == 0 && 0 <= t < YEAR_10000 * 1_000_000_000
  {
  }
}
