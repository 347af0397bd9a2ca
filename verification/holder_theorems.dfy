/** What the record of the lock holder says, written and read, line by line (src/exclusive.rs lines
    311-419). */
module HolderTheorems {
  import opened Decimal
  import opened Holder
  import opened Text
  import opened Wrappers

  // ----- writing -----

  /** Whole seconds from the epoch on, none before it. */
  function WholeSeconds(t: Time): nat { if t <= 0 then 0 else t / 1_000_000_000 }

  function LineOf(name: string, value: string): string { name + "=" + value }

  /** The eleven lines of a record. */
  function RecordLines(c: Clock, info: HolderInfo): seq<string> {
    ["zenbench-exclusive v1", LineOf("pid", Print(info.pid)), LineOf("hostname", info.hostname), LineOf("project", info.project),
     LineOf("binary", info.binary), LineOf("benchmark", info.benchmark), LineOf("activity", info.activity),
     LineOf("start", c.format(WholeSeconds(info.start))), LineOf("heartbeat", c.format(WholeSeconds(info.heartbeat))),
     LineOf("eta", if info.eta.Some? then c.format(WholeSeconds(info.eta.value)) else ""), LineOf("eof", "1")]
  }

  lemma SecondsMean(t: Time)
    ensures Seconds(t) == WholeSeconds(t)
  {
  }

  lemma PlainLines(c: Clock, info: HolderInfo)
    ensures
      && Line(c, info, KPid) == LineOf("pid", Print(info.pid)) && Line(c, info, KHostname) == LineOf("hostname", info.hostname)
      && Line(c, info, KProject) == LineOf("project", info.project) && Line(c, info, KBinary) == LineOf("binary", info.binary)
      && Line(c, info, KBenchmark) == LineOf("benchmark", info.benchmark)
      && Line(c, info, KActivity) == LineOf("activity", info.activity)
      && Line(c, info, KOther) == LineOf("eof", "1")
  {
  }

  lemma TimeLines(c: Clock, info: HolderInfo)
    ensures
      && Line(c, info, KStart) == LineOf("start", c.format(WholeSeconds(info.start)))
      && Line(c, info, KHeartbeat) == LineOf("heartbeat", c.format(WholeSeconds(info.heartbeat)))
      && Line(c, info, KEta) == LineOf("eta", if info.eta.Some? then c.format(WholeSeconds(info.eta.value)) else "")
  {
    SecondsMean(info.start);
    SecondsMean(info.heartbeat);
    if info.eta.Some? { SecondsMean(info.eta.value); }
  }

  /** The written text is those lines, each ended by a line feed. */
  lemma TextMeans(c: Clock, info: HolderInfo)
    ensures HolderText(c, info) == Terminated(RecordLines(c, info))
  {
    PlainLines(c, info);
    TimeLines(c, info);
    assert [HEADER] + LinesFor(c, info, KEYS) == RecordLines(c, info);
  }

  lemma {:induction false} TerminatedMeans(lines: seq<string>, k: nat)
    requires k < |lines|
    ensures Terminated(lines) == Terminated(lines[..k]) + lines[k] + "\n" + Terminated(lines[k + 1..])
  {
    if k > 0 {
      TerminatedMeans(lines[1..], k - 1);
      assert lines[1..][..k - 1] == lines[..k][1..] && lines[1..][k..] == lines[k + 1..];
    }
  }

  /** Line feeds end lines; what follows the last one is a line if there is anything. */
  lemma {:induction false} LinesMean(lines: seq<string>, rest: string)
    requires (forall k :: 0 <= k < |lines| ==> '\n' !in lines[k]) && '\n' !in rest
    ensures Lines(Terminated(lines) + rest) == lines + if rest == "" then [] else [rest]
    decreases |lines|
  {
    if lines == [] {
      assert Terminated(lines) + rest == rest;
    } else {
      var more := Terminated(lines[1..]) + rest;
      assert Terminated(lines) + rest == lines[0] + ['\n'] + more;
      SplitOnceOf(lines[0], '\n', more);
      LinesMean(lines[1..], rest);
    }
  }

  // ----- reading -----

  predicate IsHeader(raw: string) { TrimEnd(raw) == "zenbench-exclusive v1" }

  /** What a line says of `name`, up to the white space at its end. */
  function ValueIn(raw: string, name: string): Option<string> {
    if IsHeader(raw) then None
    else match SplitOnce(TrimEnd(raw), '=')
      case Some((k, v)) => if k == name then Some(v) else None
      case None => None
  }

  /** The last line that gives `name` a readable value decides. */
  function LastValue<T>(lines: seq<string>, name: string, read: string -> Option<T>, default: T): T {
    if lines == [] then default
    else
      var said := ValueIn(lines[|lines| - 1], name);
      if said.Some? && read(said.value).Some? then read(said.value).value
      else LastValue(lines[..|lines| - 1], name, read, default)
  }

  function AsIs(v: string): Option<string> { Some(v) }

  /** A number that cannot be read counts as 0. */
  function AsPid(v: string): Option<u32> {
    var n := Parse(v, 0x1_0000_0000);
    Some(if n.Some? then n.value else 0)
  }

  /** A time that cannot be read leaves the one before. */
  function AsTime(c: Clock): string -> Option<Time> {
    v => if c.parse(v).Some? then Some(c.parse(v).value * 1_000_000_000) else None
  }

  /** An estimate that is there but cannot be read takes back the one before. */
  function AsEstimate(c: Clock): string -> Option<Option<Time>> {
    v => if v == "" then None else Some(AsTime(c)(v))
  }

  ghost predicate TextsIn(info: HolderInfo, lines: seq<string>) {
    && info.pid == LastValue(lines, "pid", AsPid, 0)
    && info.hostname == LastValue(lines, "hostname", AsIs, "") && info.project == LastValue(lines, "project", AsIs, "")
    && info.binary == LastValue(lines, "binary", AsIs, "") && info.benchmark == LastValue(lines, "benchmark", AsIs, "")
    && info.activity == LastValue(lines, "activity", AsIs, "")
  }

  ghost predicate TimesIn(c: Clock, info: HolderInfo, lines: seq<string>) {
    && info.start == LastValue(lines, "start", AsTime(c), 0) && info.heartbeat == LastValue(lines, "heartbeat", AsTime(c), 0)
    && info.eta == LastValue(lines, "eta", AsEstimate(c), None)
  }

  lemma {:induction false} ApplyAllLast(c: Clock, r: Reading, lines: seq<string>)
    requires lines != []
    ensures ApplyAll(c, r, lines) == Apply(c, ApplyAll(c, r, lines[..|lines| - 1]), lines[|lines| - 1])
    decreases |lines|
  {
    if |lines| == 1 {
      assert lines[1..] == [] && lines[..0] == [];
    } else {
      ApplyAllLast(c, Apply(c, r, lines[0]), lines[1..]);
      assert lines[1..][..|lines| - 2] == lines[..|lines| - 1][1..];
    }
  }

  lemma KeysMean(name: string, key: Key)
    requires key != KOther
    ensures KeyOf(name) == key <==> name == NameOf(key)
  {
    KeyOfName(key);
  }

  lemma OneMoreLast<T>(lines: seq<string>, raw: string, name: string, read: string -> Option<T>, default: T)
    ensures LastValue(lines + [raw], name, read, default) ==
      var said := ValueIn(raw, name);
      if said.Some? && read(said.value).Some? then read(said.value).value else LastValue(lines, name, read, default)
  {
    assert (lines + [raw])[..|lines|] == lines;
  }

  lemma WhichKey(name: string)
    ensures (KeyOf(name) == KPid <==> name == "pid") && (KeyOf(name) == KHostname <==> name == "hostname")
    ensures (KeyOf(name) == KProject <==> name == "project") && (KeyOf(name) == KBinary <==> name == "binary")
    ensures (KeyOf(name) == KBenchmark <==> name == "benchmark") && (KeyOf(name) == KActivity <==> name == "activity")
    ensures (KeyOf(name) == KStart <==> name == "start") && (KeyOf(name) == KHeartbeat <==> name == "heartbeat")
    ensures KeyOf(name) == KEta <==> name == "eta"
  {
    KeysMean(name, KPid);
    KeysMean(name, KHostname);
    KeysMean(name, KProject);
    KeysMean(name, KBinary);
    KeysMean(name, KBenchmark);
    KeysMean(name, KActivity);
    KeysMean(name, KStart);
    KeysMean(name, KHeartbeat);
    KeysMean(name, KEta);
  }

  lemma OneMoreText(c: Clock, info: HolderInfo, lines: seq<string>, raw: string, name: string, v: string)
    requires !IsHeader(raw) && SplitOnce(TrimEnd(raw), '=') == Some((name, v))
    requires TextsIn(info, lines)
    ensures TextsIn(Set(c, info, KeyOf(name), v), lines + [raw])
  {
    WhichKey(name);
    OneMoreLast(lines, raw, "pid", AsPid, 0);
    OneMoreLast(lines, raw, "hostname", AsIs, "");
    OneMoreLast(lines, raw, "project", AsIs, "");
    OneMoreLast(lines, raw, "binary", AsIs, "");
    OneMoreLast(lines, raw, "benchmark", AsIs, "");
    OneMoreLast(lines, raw, "activity", AsIs, "");
  }

  lemma OneMoreTime(c: Clock, info: HolderInfo, lines: seq<string>, raw: string, name: string, v: string)
    requires !IsHeader(raw) && SplitOnce(TrimEnd(raw), '=') == Some((name, v))
    requires TimesIn(c, info, lines)
    ensures TimesIn(c, Set(c, info, KeyOf(name), v), lines + [raw])
  {
    WhichKey(name);
    OneMoreLast(lines, raw, "start", AsTime(c), 0);
    OneMoreLast(lines, raw, "heartbeat", AsTime(c), 0);
    OneMoreLast(lines, raw, "eta", AsEstimate(c), None);
  }

  ghost predicate ReadSoFar(c: Clock, r: Reading, lines: seq<string>) {
    && TextsIn(r.info, lines) && TimesIn(c, r.info, lines)
    && (r.versionSeen <==> HasHeader(lines))
  }

  lemma LineWithoutValue<T>(lines: seq<string>, raw: string, name: string, read: string -> Option<T>, default: T)
    requires IsHeader(raw) || SplitOnce(TrimEnd(raw), '=').None?
    ensures LastValue(lines + [raw], name, read, default) == LastValue(lines, name, read, default)
  {
    OneMoreLast(lines, raw, name, read, default);
  }

  lemma NothingSaid(c: Clock, info: HolderInfo, lines: seq<string>, raw: string)
    requires IsHeader(raw) || SplitOnce(TrimEnd(raw), '=').None?
    requires TextsIn(info, lines) && TimesIn(c, info, lines)
    ensures TextsIn(info, lines + [raw]) && TimesIn(c, info, lines + [raw])
  {
    LineWithoutValue(lines, raw, "pid", AsPid, 0);
    LineWithoutValue(lines, raw, "hostname", AsIs, "");
    LineWithoutValue(lines, raw, "project", AsIs, "");
    LineWithoutValue(lines, raw, "binary", AsIs, "");
    LineWithoutValue(lines, raw, "benchmark", AsIs, "");
    LineWithoutValue(lines, raw, "activity", AsIs, "");
    LineWithoutValue(lines, raw, "start", AsTime(c), 0);
    LineWithoutValue(lines, raw, "heartbeat", AsTime(c), 0);
    LineWithoutValue(lines, raw, "eta", AsEstimate(c), None);
  }

  /** One more line sets what it says and leaves the rest. */
  lemma OneMoreLine(c: Clock, r: Reading, lines: seq<string>, raw: string)
    requires ReadSoFar(c, r, lines)
    ensures ReadSoFar(c, Apply(c, r, raw), lines + [raw])
  {
    var more := lines + [raw];
    assert more[|lines|] == raw && forall k :: 0 <= k < |lines| ==> more[k] == lines[k];
    var said := SplitOnce(TrimEnd(raw), '=');
    if IsHeader(raw) || said.None? {
      NothingSaid(c, r.info, lines, raw);
    } else {
      OneMoreText(c, r.info, lines, raw, said.value.0, said.value.1);
      OneMoreTime(c, r.info, lines, raw, said.value.0, said.value.1);
    }
  }

  lemma {:induction false} ApplyAllMeans(c: Clock, lines: seq<string>)
    ensures ReadSoFar(c, ApplyAll(c, BLANK, lines), lines)
    decreases |lines|
  {
    if lines != [] {
      var front, last := lines[..|lines| - 1], lines[|lines| - 1];
      ApplyAllMeans(c, front);
      ApplyAllLast(c, BLANK, lines);
      assert lines == front + [last];
      OneMoreLine(c, ApplyAll(c, BLANK, front), front, last);
    }
  }

  ghost predicate HasMarker(buf: string) { exists i, j :: 0 <= i <= j <= |buf| && buf[i..j] == "eof=1" }

  ghost predicate HasHeader(lines: seq<string>) { exists k :: 0 <= k < |lines| && IsHeader(lines[k]) }

  lemma MarkerMeans(buf: string)
    ensures Contains(buf, "eof=1") <==> HasMarker(buf)
  {
    if Contains(buf, "eof=1") {
      var i :| 0 <= i <= |buf| && "eof=1" <= buf[i..];
      assert buf[i..i + 5] == "eof=1";
    }
    if HasMarker(buf) {
      var i, j :| 0 <= i <= j <= |buf| && buf[i..j] == "eof=1";
      assert buf[i..][..j - i] == "eof=1";
    }
  }

  /** A file is read exactly if it has the end marker somewhere and a header line. */
  lemma ReadExactlyWhen(c: Clock, buf: string)
    ensures Restored(c, buf).Some? <==> HasMarker(buf) && HasHeader(Lines(buf))
  {
    MarkerMeans(buf);
    ApplyAllMeans(c, Lines(buf));
  }

  /** Then every field is what the last line about it says, or blank if none does. */
  lemma ReadingMeans(c: Clock, buf: string)
    ensures Restored(c, buf).Some? ==>
      TextsIn(Restored(c, buf).value, Lines(buf)) && TimesIn(c, Restored(c, buf).value, Lines(buf))
  {
    ApplyAllMeans(c, Lines(buf));
  }
}
